# Plymouth, modelled and proved in Dafny

This project models three components of Plymouth, the boot splash, and proves what
their code is for.  `dafny verify dfyconfig.toml` verifies all of it.

**Terminal emulator and rich text.**  Boot output arrives in chunks of any size and is
read one byte at a time: UTF-8 is assembled, escape and control sequences (ECMA-48) are
parsed, and characters are put on a ring of lines.  The main results say exactly when
cutting the input is invisible, that the ring shows the tail of an unbounded document,
that parameters survive parsing, and that attributes change nothing but style.

| file | what it holds |
|---|---|
| `RichText`, `Screen`, `Feeding`, `Utf8` | lines, the handlers, one byte, one call |
| `Gaps`, `ChunkIndependence` | gaps in lines; cutting the input |
| `LineRing` | the ring and the document |
| `ControlSequences`, `Attributes` | parameters; styles |
| `Printing`, `Rendition`, `Handling` | which slot holds what; each field of a style; each handler, as a table |
| `TerminalEmulator` | the emulator as an object, tied to the above |

**Pixel buffer.**  One picture, four ways to lay it out in memory, a stack of clips,
damage, fixed-point blending and a copying path beside the blending one.

| file | what it holds |
|---|---|
| `Pixels`, `Rectangles`, `Arithmetic` | blending; rectangles; remainders |
| `Canvas`, `Gradients` | layouts and operations on values; dithered colours |
| `Pictures`, `Painting` | rotation, damage, the opacity mark, the fast path; what is at a pixel |
| `PixelBuffer` | the buffer as an object drawn on in place |

**Boot protocol, prompts and keyboard.**  A client and the daemon talk over two byte
channels; some replies are deferred by triggers that hold references to connections;
prompts share one keyboard and one text.

| file | what it holds |
|---|---|
| `Buffers`, `Protocol` | byte buffers with a limit; frames and replies |
| `BootClient`, `Matching` | the client's queues; replies end to end |
| `Interaction`, `Keyboard`, `LineEditing` | prompts; bytes to keys; keys to edits |
| `Daemon`, `References`, `DaemonRuns`, `DaemonAnswers` | the daemon as steps, and what runs keep |
| `Hangs`, `Conversations` | a password that stops it; what it says to one connection, end to end |
| `Answering`, `Encoding` | whose answers are kept, and what is told at once; UTF-8, typed and printed |
| `Turns`, `Overtaking`, `Precedence` | which of two requests is answered first |
| `Plymouthd` | the daemon as objects, tied to the steps |
| `KernelMessages` | unescaping in place |

Objects have a value they stand for (`Contents`, `Snapshot`), each method says what it
does to that value, and the theorems are about the values.  The event loop is a free
choice of the next step; the splash's validation of input, the locale's decoding, the
outcome of writes and what the daemon finds around it are inputs.

## What the code does that its description does not say

- The cached-password reply passes through a buffer of 1044480 bytes that forgets its
  oldest bytes and an array of at most 130558 pointers, so the client's limit of 1 MiB is
  never what decides (`Protocol.GatheredIsSplitIff`).
- An append of exactly 1044480 bytes never ends (`Buffers.AppendEndsIff`).  A typed
  password settles at 1044479 bytes, which with its NUL is that length, so the next
  request for cached passwords hangs the daemon (`Hangs.LongPasswordHangsIff`).
- A fill of the whole area sets `is_opaque` even when a pushed clip keeps it from part of
  the picture (`Pictures.ClippedFillMarksFalsely`).
- A gradient's bright channels carry past the top and start again from 0: white to white
  begins with red (`Gradients.WhiteGradientIsNotWhite`).
- A client whose only request cannot be written keeps watching for writability, and its
  own assertion fails when the socket next is writable (`BootClients.AbortsIff`).
- A tab above the bottom row does not pad, and CSI G on one column passes the margin; both
  make the cutting of the input visible (`ChunkIndependence.TabIsHarmlessIff`,
  `ChunkIndependence.AnyCutIsHarmlessIff`).
- Ctrl-U erases as many characters of the prompt as the line has.  A character the locale
  does not decode is not in the line, and enter clears the line even when the answer is
  refused, so text can stay (`LineEditing.LineEraseEmptiesIff`).
- A line that outgrew its buffer may begin inside a character; then Ctrl-U never ends
  (`LineEditing.LongLineHangsIff`).
- Colours drawn onto a translucent pixel are summed without being scaled down, so a half
  transparent grey on another comes out white (`Painting.GreyOnGreyIsWhite`).
- A byte that begins no character stays at the front of the keyboard's buffer and holds
  up everything typed after it (`Encoding.StrayBytesBlock`).
- Clients pair replies with requests by their order, but a request can be answered before
  one that waits.  A prompt keeps its turn behind a prompt, a deactivation behind a
  deactivation, a quit behind both and a keystroke behind one for the same keys; a
  password asked for with no splash shown, a ping, a deactivation behind a quit and most
  others do not (`Precedence.OvertakesIff`).
- An extra clip is cut differently by the two blitting paths when scaling it down and up
  again changes its part at nonnegative coordinates (`Pictures.PathsAlwaysAgreeIff`).

## Model

| member | source | states |
|---|---|---|
| `RichText.SetCharacterAt` | src/libply-splash-core/ply-rich-text.c:242-282 | setting a character changes its slot and no other, extends the line to it, and does nothing outside the mutable span |
| `RichText.MoveCharacterAt` | src/libply-splash-core/ply-rich-text.c:210-239 | moving empties the source slot and overwrites the destination, only when both lie in the span and in the line |
| `RichText.FilledIsLength` | src/libply-splash-core/ply-rich-text.c:129-141 | the length is the number of slots before the first empty one |
| `RichText.RichTextLine.Set` | src/libply-splash-core/ply-rich-text.c:242-282 | the in-place update is the value update |
| `RichText.RichTextLine.Move` | src/libply-splash-core/ply-rich-text.c:210-239 | the in-place move is the value move |
| `RichText.RichTextLine.RemoveAt` | src/libply-splash-core/ply-rich-text.c:184-208 | the in-place removal is the value removal |
| `RichText.RichTextLine.GetLength` | src/libply-splash-core/ply-rich-text.c:129-141 | the loop finds the first empty slot |
| `RichText.RichTextLine.RemoveCharacters` | src/libply-splash-core/ply-rich-text.c:111-127 | every slot of the line is dropped |
| `Feeding.FeedSplits` | src/libply-splash-core/ply-terminal-emulator.c:1116-1365 | reading `a` and then `b` inside one call is reading `a + b`, whatever state `a` ends in |
| `Feeding.FeedIsCommitted` | src/libply-splash-core/ply-terminal-emulator.c:1341-1364 | a call ends by committing the run in progress: line, cursor and new lines |
| `Feeding.AppendedAt` | src/libply-splash-core/ply-terminal-emulator.c:1347-1359 | new lines empty exactly the slots of the ring they take over |
| `ChunkIndependence.SplitIsHarmlessIffGapFree` | src/libply-splash-core/ply-terminal-emulator.c:1133-1365 | for well-formed UTF-8 `a`: feeding `a` then `b` equals feeding `a + b` for every `b` if and only if a new line is due when `a` ends, or the cursor is then inside the margin with no gap before it; on any width, one column included |
| `ChunkIndependence.NeverUpIsHarmless` | src/libply-splash-core/ply-terminal-emulator.c:1367-1401 | with the cursor on the bottom row of two columns or more, text without ESC M, CSI A and CSI F may be cut anywhere, inside a character or an escape sequence too |
| `ChunkIndependence.AnyCutIsHarmlessIff` | src/libply-splash-core/ply-terminal-emulator.c:1367-1401 | from a new emulator all such texts may be cut anywhere, whatever follows, if and only if it has two columns or more |
| `ChunkIndependence.ChunksAreTheirConcatenation` | src/libply-splash-core/ply-terminal-emulator.c:1367-1401 | any number of such chunks show what their concatenation shows: lines, cursor, style and parser state |
| `ChunkIndependence.CuttingDoesNotMatter` | src/libply-splash-core/ply-terminal-emulator.c:1367-1401 | two ways of cutting one text leave a new emulator of at least two columns in the same state |
| `ChunkIndependence.StepStaysOrderly` | src/libply-splash-core/ply-terminal-emulator.c:1152-1339 | the invariant behind it: between bytes the column does not pass the gap-free length of the line (on one column, unless it passes the margin) |
| `ChunkIndependence.GapIsHarmful` | src/libply-splash-core/ply-terminal-emulator.c:1133-1150 | at a gap, or past the margin, some input that follows tells the cut from none |
| `ChunkIndependence.TabIsHarmlessIff` | src/libply-splash-core/ply-terminal-emulator.c:919-973 | a cut after a tab is harmless exactly on the bottom row, or when the line reaches the tab stop anyway |
| `ChunkIndependence.TabAboveBottomRowIsHarmful` | src/libply-splash-core/ply-terminal-emulator.c:955-972 | after a line feed and a reverse line feed on a new screen a tab leaves a gap, so a cut after it shows |
| `ChunkIndependence.CursorAboveBottomRow` | src/libply-splash-core/ply-terminal-emulator.c:284-296 | the state a line feed and a reverse line feed leave |
| `ChunkIndependence.OneColumnIsHarmful` | src/libply-splash-core/ply-terminal-emulator.c:590-638 | on a new screen of one column, and two rows or more, CSI 2 G passes the margin, and whether the next character shows depends on the cut |
| `LineRing.RingRefinesDocument` | src/libply-splash-core/ply-terminal-emulator.c:1367-1401 | while the cursor stays among the last rows, the ring with its bottom-relative cursor shows the tail of an unbounded document with an absolute cursor |
| `LineRing.NeverUpRefinesDocument` | src/libply-splash-core/ply-terminal-emulator.c:1367-1401 | from a new emulator that is so for every well-formed text that never moves up |
| `LineRing.LineCountIsHighWaterMark` | src/libply-splash-core/ply-terminal-emulator.c:1347-1359 | over any input, lines are begun up to the lowest row the cursor was ever left on, and none is given back; the cursor ends on the row reached last |
| `LineRing.RingCountIsHighWaterMark` | src/libply-splash-core/ply-terminal-emulator.c:1347-1359 | so over every text whose runs stay in the window, from any state of the ring, line_count is the larger of what it was and one more than the lowest row reached |
| `LineRing.AboveWindowTheSlotIsTaken` | src/libply-splash-core/ply-terminal-emulator.c:1068-1074 | above the window the selected slot holds a younger line |
| `LineRing.FreshRefines` | src/libply-splash-core/ply-terminal-emulator.c:141-187 | a new emulator shows a document of one empty line |
| `ControlSequences.SequenceIsDispatched` | src/libply-splash-core/ply-terminal-emulator.c:1246-1339 | ESC [, fields joined by semicolons with control characters anywhere between, and a final byte dispatch first the control characters in order and then the command with the values of the fields, empty ones being 0 |
| `ControlSequences.ParametersRoundTrip` | src/libply-splash-core/ply-terminal-emulator.c:1263-1339 | any nonempty list of 32-bit values printed in decimal is dispatched as that list |
| `ControlSequences.DecimalRoundTrip` | src/libply-splash-core/ply-terminal-emulator.c:1281-1319 | reading the decimal digits of a 32-bit number gives the number |
| `ControlSequences.RecentIs` | src/libply/ply-array.c:112-127 | that is, the last 261118 |
| `ControlSequences.GatheredIsRecent` | src/libply/ply-array.c:112-127 | of more values than a parameter array holds the most recent are kept |
| `Attributes.AttributesAreTransparent` | src/libply-splash-core/ply-terminal-emulator.c:788-899 | deleting every CSI…m from a text of printable UTF-8, newline, return, backspace, tab and CSI…m leaves the same characters at the same places and the same cursor |
| `Attributes.NewEmulatorShowsTheSame` | src/libply-splash-core/ply-terminal-emulator.c:788-899 | from a new emulator, two texts that differ only in CSI…m sequences show the same characters at the same places |
| `Attributes.ParsingIsPlotting` | src/libply-splash-core/ply-terminal-emulator.c:1082-1114 | such a text shows the plot of its characters, each in the style folded from the sequences before it, and leaves that style behind |
| `Attributes.CharactersTakeTheirStyle` | src/libply-splash-core/ply-terminal-emulator.c:788-899 | each character takes the style left by the sequences before it and no other |
| `Printing.PrintedAt` | src/libply-splash-core/ply-terminal-emulator.c:1082-1114 | a printable character is stored as its bytes, in the style in force, in the slot under the cursor; every other slot stays, the column grows by one, and at the margin, and only there, a new line is asked for |
| `Printing.TextIsShown` | src/libply-splash-core/ply-terminal-emulator.c:1082-1114 | of any number of characters mixed with attribute sequences on a new emulator, each stands on the line and in the slot its number says, with its bytes and in the style left by the sequences before it, as long as its line is kept; the other slots of kept lines are empty, and the cursor is after the last |
| `Printing.FirstLineIsShown` | src/libply-splash-core/ply-terminal-emulator.c:1082-1114 | slot by slot, when they are fewer than the columns |
| `Printing.StrayByteIsPrinted` | src/libply-splash-core/ply-terminal-emulator.c:1152-1200 | a byte that continues no character is printed as a question mark |
| `Printing.CutCharacterIsPrinted` | src/libply-splash-core/ply-terminal-emulator.c:1152-1200 | a character cut short by another is printed as a question mark, and the other after it |
| `Printing.OtherBytesAreSkipped` | src/libply-splash-core/ply-terminal-emulator.c:1152-1200 | NULs and bytes that are no UTF-8 change nothing that shows |
| `Rendition.ParametersDecide` | src/libply-splash-core/ply-terminal-emulator.c:788-899 | once 38, 48 and the parameter after each are dropped, every field of the style is decided by the last parameter that speaks of it: both colours, and bold, dim, italic, underline and reverse; without one the field stays |
| `Rendition.TextDecides` | src/libply-splash-core/ply-terminal-emulator.c:788-899 | so do all the attribute sequences of a text together |
| `Handling.SequenceDoes` | src/libply-splash-core/ply-terminal-emulator.c:299-785 | each control sequence that is understood, with any parameters, leaves exactly these slots, this column, this row offset and this request for another line, as a table by final byte says; CSI @ on lines no longer than the screen is wide |
| `Handling.ControlCharacterDoes` | src/libply-splash-core/ply-terminal-emulator.c:901-998 | so do backspace, tab, line feeds and carriage return, and other control characters do nothing |
| `Handling.EscapeCodeDoes` | src/libply-splash-core/ply-terminal-emulator.c:253-296 | ESC D, ESC E and ESC M move by a row and other codes do nothing |
| `Handling.OtherSequencesDoNothing` | src/libply-splash-core/ply-terminal-emulator.c:1246-1339 | a control sequence with anything else among its parameters is read to its end and does nothing |
| `Handling.LineIsTakenUp` | src/libply-splash-core/ply-terminal-emulator.c:1116-1150 | a run begins on the line of the cursor, with a column past the margin back at the first and a gap before the cursor filled with blanks |
| `TerminalEmulator.Terminal.constructor` | src/libply-splash-core/ply-terminal-emulator.c:141-187 | a new emulator has one line, an empty ring and the default style |
| `TerminalEmulator.Terminal.FillOffsetsWithPadding` | src/libply-splash-core/ply-terminal-emulator.c:233-251 | blanks from the first offset through the last |
| `TerminalEmulator.Terminal.InsertBlankCharacters` | src/libply-splash-core/ply-terminal-emulator.c:299-367 | CSI @ as specified, with its odd shift near the right edge |
| `TerminalEmulator.Terminal.MoveCursorRight` | src/libply-splash-core/ply-terminal-emulator.c:437-479 | CSI C pads and stops at the margin |
| `TerminalEmulator.Terminal.MoveCursorLeft` | src/libply-splash-core/ply-terminal-emulator.c:482-520 | CSI D stops at the first column |
| `TerminalEmulator.Terminal.MoveCursorToColumn` | src/libply-splash-core/ply-terminal-emulator.c:590-638 | CSI G pads up to the column |
| `TerminalEmulator.Terminal.EraseLine` | src/libply-splash-core/ply-terminal-emulator.c:641-699 | CSI K blanks up to, from or around the cursor |
| `TerminalEmulator.Terminal.DeleteCharacters` | src/libply-splash-core/ply-terminal-emulator.c:702-742 | CSI P as specified, with its odd shift near the right edge |
| `TerminalEmulator.Terminal.EraseCharacters` | src/libply-splash-core/ply-terminal-emulator.c:745-785 | CSI X blanks without moving |
| `TerminalEmulator.Terminal.SetAttributes` | src/libply-splash-core/ply-terminal-emulator.c:788-899 | CSI m folds the parameters into the style, skipping what the source skips |
| `TerminalEmulator.Terminal.Tab` | src/libply-splash-core/ply-terminal-emulator.c:919-973 | a tab moves to the next stop and pads on the bottom row only |
| `TerminalEmulator.Terminal.DispatchSequence` | src/libply-splash-core/ply-terminal-emulator.c:1037-1066 | each final byte reaches its handler |
| `TerminalEmulator.Terminal.DispatchPending` | src/libply-splash-core/ply-terminal-emulator.c:1037-1066 | pending commands run in order of arrival |
| `TerminalEmulator.Terminal.FlushPendingCharacter` | src/libply-splash-core/ply-terminal-emulator.c:1082-1114 | a finished character is put at the cursor and a full row asks for a new line at once |
| `TerminalEmulator.Terminal.ParseByte` | src/libply-splash-core/ply-terminal-emulator.c:1246-1339 | one byte of text, escape or control sequence |
| `TerminalEmulator.Terminal.TakeByte` | src/libply-splash-core/ply-terminal-emulator.c:1152-1339 | one byte of input, including UTF-8 assembly |
| `TerminalEmulator.Terminal.ParseSubstring` | src/libply-splash-core/ply-terminal-emulator.c:1116-1365 | one run: it takes at least one byte, as many as the run needs, and commits it |
| `TerminalEmulator.Terminal.ParseLines` | src/libply-splash-core/ply-terminal-emulator.c:1367-1401 | the loop over runs, proved to end, computes what the specification says |
| `TerminalEmulator.ParseRun` | src/libply-splash-core/ply-terminal-emulator.c:1380-1400 | cutting the input into runs and feeding it whole are the same |
| `Pixels.BlendedOverOpaque` | src/libply-splash-core/ply-pixel-buffer.c:66-92 | a premultiplied pixel over an opaque backdrop: no channel wraps, the result is opaque, and each channel is within 128/255 of the exact composite |
| `Pixels.OverWrapsAround` | src/libply-splash-core/ply-pixel-buffer.c:84-92 | without premultiplication a channel does wrap |
| `Pixels.TransparentIsIdentity` | src/libply-splash-core/ply-pixel-buffer.c:66-92 | a fully transparent premultiplied pixel changes nothing |
| `Pixels.BlendedStaysOpaque` | src/libply-splash-core/ply-pixel-buffer.c:66-92 | an opaque backdrop stays opaque under any pixel |
| `Pixels.TranslucentIsScaled` | src/libply-splash-core/ply-pixel-buffer.c:130-155 | scaling by an opacity meets the same error bound and keeps every channel at most alpha |
| `Pixels.RoundedIsClose` | src/libply-splash-core/ply-pixel-buffer.c:88-90 | the shift-and-add division by 255 is off by at most 128/255 down and 127/255 up |
| `Pixels.RoundedFitsIff` | src/libply-splash-core/ply-pixel-buffer.c:88-90 | it fits a byte exactly up to 65153 |
| `Rectangles.IntersectIsIntersection` | src/libply/ply-rectangle.c:200-260 | the rectangle holds exactly the points both rectangles hold |
| `Rectangles.ClippedIsIntersection` | src/libply-splash-core/ply-pixel-buffer.c:248-270 | cropping by the clip stack keeps exactly the points inside every clip |
| `Rectangles.DownscaledUpscaled` | src/libply-splash-core/ply-pixel-buffer.c:220-238 | scaling up and then down, with truncating division, gives the rectangle back |
| `Canvas.IndexInBounds` | src/libply-splash-core/ply-pixel-buffer.c:156-201 | in all four rotations every pixel of the picture has a cell inside memory, and the cell gives the pixel back |
| `Canvas.PlaceOnPicture` | src/libply-splash-core/ply-pixel-buffer.c:156-201 | in all four rotations every cell holds a pixel of the picture, which is indexed there |
| `Canvas.IndexIsInjective` | src/libply-splash-core/ply-pixel-buffer.c:156-201 | different pixels have different cells |
| `Canvas.DamageIsExact` | src/libply-splash-core/ply-pixel-buffer.c:271-299 | the rectangle reported is exactly the image of the drawn area where the device scans it out |
| `Canvas.DrawnPixel` | src/libply-splash-core/ply-pixel-buffer.c:203-218 | read through get_pixel, the pixels of the area change to the ink over what was there and no other changes |
| `Pictures.RotationRefines` | src/libply-splash-core/ply-pixel-buffer.c:301-331 | any sequence of fills, data, blits, and clips pushed and popped on a rotated buffer shows what it shows on the upright buffer with the same picture, if opaque blits of the same scale come from buffers that are opaque, with clips that scaling down and up leaves alone |
| `Pictures.CopyIsBlend` | src/libply-splash-core/ply-pixel-buffer.c:858-896 | such a blit does what the general path does, whichever path it takes |
| `Pictures.AnyTwoRotationsAgree` | src/libply-splash-core/ply-pixel-buffer.c:301-331 | so two buffers in any two rotations that show the same keep showing the same |
| `Pictures.BlanksShowTheSame` | src/libply-splash-core/ply-pixel-buffer.c:365-394 | new buffers of one logical size show the same in every rotation |
| `Pictures.RotateUprightAfterDrawing` | src/libply-splash-core/ply-pixel-buffer.c:1128-1151 | drawing and then materialising is materialising what the upright buffer drew |
| `Pictures.DamageIsDrawn` | src/libply-splash-core/ply-pixel-buffer.c:271-299 | a fill, data, gradient or blit adds to the damage exactly the places it draws on |
| `Pictures.RunIsDamaged` | src/libply-splash-core/ply-pixel-buffer.c:271-331 | over a whole run of fills, data, gradients, blits and clips on one buffer every cell that changed is inside the accumulated damage |
| `Pictures.MarkIsTrueIff` | src/libply-splash-core/ply-pixel-buffer.c:301-331 | a fill that sets is_opaque leaves every pixel opaque exactly when all it was kept from by clips was opaque before |
| `Pictures.MarkIsAlwaysTrue` | src/libply-splash-core/ply-pixel-buffer.c:314-331 | over every run of fills, data, gradients, blits, clips and rotate_upright, is_opaque means that every alpha is 255, if marking fills see only the base clip |
| `Pictures.ClippedFillMarksFalsely` | src/libply-splash-core/ply-pixel-buffer.c:314-319 | one pushed clip makes the mark a lie |
| `Pictures.FastPathEqualsGeneralPath` | src/libply-splash-core/ply-pixel-buffer.c:858-896 | the copying path and the blending path give the same memory and damage for every canvas, offset and clip stack, when the source is opaque and an extra clip is a multiple of the scale |
| `Pictures.PathsAgreeIffAreasDo` | src/libply-splash-core/ply-pixel-buffer.c:858-896 | on a given canvas, source and offset the two paths give the same memory and damage if and only if the areas they draw in are equal or both empty |
| `Pictures.PathsAlwaysAgreeIff` | src/libply-splash-core/ply-pixel-buffer.c:858-896 | over all canvases, sources and offsets they do if and only if scaling the clip down and up again leaves its part at x >= 0 and y >= 0 alone |
| `Pictures.AlikeIffSamePoints` | src/libply-splash-core/ply-pixel-buffer.c:871-873 | that condition, on four edges, says that the same points with x >= 0 and y >= 0 are in both rectangles |
| `Pictures.VisibleClipsMustBeMultiples` | src/libply-splash-core/ply-pixel-buffer.c:871-873 | a nonempty clip that begins at x >= 0 and y >= 0 meets it exactly when it is a multiple of the scale |
| `Pictures.HiddenEdgesDoNotMatter` | src/libply-splash-core/ply-pixel-buffer.c:871-873 | one that begins off the canvas may meet it without being a multiple |
| `Pictures.SmallClipIsCutDifferently` | src/libply-splash-core/ply-pixel-buffer.c:858-896 | a clip of one device pixel at scale 2: the fast path copies a pixel and reports it, the general path does nothing |
| `Pictures.CopyReadsInBounds` | src/libply-splash-core/ply-pixel-buffer.c:827-841 | the copied area lies on the canvas and on the source |
| `Pictures.BlitKeepsMarkTrue` | src/libply-splash-core/ply-pixel-buffer.c:843-897 | a blit from a truly marked source keeps the canvas truly marked, on both paths |
| `Pictures.RotationIsSoundIff` | src/libply-splash-core/ply-pixel-buffer.c:1095-1126 | after set_device_rotation the base clip is the whole area again exactly at scale 1, and no pixel has changed |
| `PixelBuffers.PixelBuffer.constructor` | src/libply-splash-core/ply-pixel-buffer.c:365-394 | a new buffer is blank, with its sides swapped when sideways |
| `PixelBuffers.PixelBuffer.SetPixel` | src/libply-splash-core/ply-pixel-buffer.c:156-180 | one cell is written: that of the pixel |
| `PixelBuffers.PixelBuffer.GetPixel` | src/libply-splash-core/ply-pixel-buffer.c:181-201 | the pixel is read back from its cell |
| `PixelBuffers.PixelBuffer.BlendValueAtPixel` | src/libply-splash-core/ply-pixel-buffer.c:203-218 | one cell becomes the ink over what it held |
| `PixelBuffers.PixelBuffer.CropAreaToClipArea` | src/libply-splash-core/ply-pixel-buffer.c:248-270 | the loop over the clips crops to all of them |
| `PixelBuffers.PixelBuffer.AddUpdatedArea` | src/libply-splash-core/ply-pixel-buffer.c:271-299 | the rotated rectangle is added to the damage |
| `PixelBuffers.PixelBuffer.FillAreaWithPixelValue` | src/libply-splash-core/ply-pixel-buffer.c:301-331 | the nested loops draw the whole cropped area, once per pixel |
| `PixelBuffers.PixelBuffer.PushClipArea` | src/libply-splash-core/ply-pixel-buffer.c:333-345 | a clip is pushed at device scale |
| `PixelBuffers.PixelBuffer.PopClipArea` | src/libply-splash-core/ply-pixel-buffer.c:347-355 | the last clip is popped |
| `PixelBuffers.PixelBuffer.FillWithArgb32Data` | src/libply-splash-core/ply-pixel-buffer.c:699-775 | the nested loops stamp the data, skipping transparent pixels |
| `PixelBuffers.PixelBuffer.FillWithGradient` | src/libply-splash-core/ply-pixel-buffer.c:464-582 | the rows of the cropped area get the dithered colours of the gradient, eight at a time where the source does so, nothing else changes, and the area is reported |
| `PixelBuffers.PixelBuffer.ShadeRow` | src/libply-splash-core/ply-pixel-buffer.c:545-555 | a row pixel by pixel, each channel with the next noise |
| `PixelBuffers.PixelBuffer.ShadeWideRow` | src/libply-splash-core/ply-pixel-buffer.c:556-576 | a row as copies of its first eight pixels |
| `PixelBuffers.PixelBuffer.CopyArea` | src/libply-splash-core/ply-pixel-buffer.c:827-841 | row by row copying lays the source on the canvas |
| `PixelBuffers.PixelBuffer.FillWithBuffer` | src/libply-splash-core/ply-pixel-buffer.c:843-897 | the choice between the two paths |
| `PixelBuffers.PixelBuffer.SetDeviceScale` | src/libply-splash-core/ply-pixel-buffer.c:1079-1087 | the logical size follows the scale |
| `PixelBuffers.PixelBuffer.SetDeviceRotation` | src/libply-splash-core/ply-pixel-buffer.c:1095-1126 | the picture turns, memory stays, the clips are replaced |
| `PixelBuffers.PixelBuffer.RotateUpright` | src/libply-splash-core/ply-pixel-buffer.c:1128-1151 | a new upright buffer, drawn pixel by pixel, with the picture of this one |
| `Painting.FillPaints` | src/libply-splash-core/ply-pixel-buffer.c:301-331 | a fill leaves at a pixel inside the area and all clips its own pixel composited onto what was there, to within 128/255, and nothing new elsewhere |
| `Painting.DataPaints` | src/libply-splash-core/ply-pixel-buffer.c:714-777 | data at an opacity: at a pixel inside the scaled area, the clip and all clips, a transparent datum leaves an opaque pixel alone and a premultiplied one leaves an opaque pixel with each channel within 97920/65025 of the channel made translucent and composited; on any pixel, a pixel scaled by the opacity and painted; nothing new elsewhere |
| `Painting.SlowBlitPaints` | src/libply-splash-core/ply-pixel-buffer.c:884-896 | so does a blit that blends, with the memory of its source |
| `Painting.FastBlitPaints` | src/libply-splash-core/ply-pixel-buffer.c:826-883 | a blit that copies leaves the pixels of its source, row by row |
| `Painting.GradientPaints` | src/libply-splash-core/ply-pixel-buffer.c:464-582 | a gradient leaves its colours at full alpha inside the area and all clips |
| `Painting.GradientIsPainted` | src/libply-splash-core/ply-pixel-buffer.c:464-582 | fill_with_gradient leaves at each pixel the levels of its row between the two colours, with the noises of its place, and nothing new elsewhere |
| `Painting.OpacityByteIs` | src/libply-splash-core/ply-pixel-buffer.c:739 | the opacity used is the real one out of 255, rounded down |
| `Painting.InkIsPainted` | src/libply-splash-core/ply-pixel-buffer.c:66-128 | onto a translucent pixel the alphas are composited, and each colour is a sum of products that is exact to 128/255, or 255 |
| `Painting.GreyOnGreyIsWhite` | src/libply-splash-core/ply-pixel-buffer.c:107-127 | a half transparent grey on another comes out white |
| `Painting.UpscaledContains` | src/libply-splash-core/ply-pixel-buffer.c:220-228 | a device pixel lies in a scaled rectangle exactly when its quotient lies in the rectangle |
| `Painting.TruncatedIsTowardsZero` | src/libply-splash-core/ply-pixel-buffer.c:230-238 | scaling down drops the fraction towards zero |
| `Painting.PictureIsTurned` | src/libply-splash-core/ply-pixel-buffer.c:157-201 | in each rotation, which corner comes first in memory, and how far a step to the right or down goes |
| `Painting.ClipsAreStacked` | src/libply-splash-core/ply-pixel-buffer.c:333-355 | a pushed clip cuts everything to it, in device pixels, and popping it undoes it |
| `Painting.OnlyFillsMark` | src/libply-splash-core/ply-pixel-buffer.c:314-319 | only a fill of the whole area with an opaque pixel sets is_opaque, and nothing clears it |
| `Painting.NewIsBlank` | src/libply-splash-core/ply-pixel-buffer.c:365-394 | a new buffer is transparent in every pixel, unmarked, at scale 1, and clipped to itself |
| `Painting.ScaleIsSet` | src/libply-splash-core/ply-pixel-buffer.c:1079-1087 | the logical area is as many whole logical pixels as fit, and nothing else changes |
| `Painting.TurnIsSet` | src/libply-splash-core/ply-pixel-buffer.c:1095-1126 | memory stays, and the sides are exchanged exactly when one rotation is sideways and the other is not |
| `Painting.UprightIsTheSamePicture` | src/libply-splash-core/ply-pixel-buffer.c:1128-1151 | every pixel, the mark and the scale are those of the old buffer |
| `Gradients.LevelRuns` | src/libply-splash-core/ply-pixel-buffer.c:526-535 | the first row has the first colour, all rows the same step towards the last, and the last falls short of its colour by the rounding only |
| `Gradients.PixelsTakeNoiseInOrder` | src/libply-splash-core/ply-pixel-buffer.c:541-580 | each channel of a pixel takes the noise after that of the channel before, pixels in reading order; wide rows of an upright buffer repeat their first eight |
| `Gradients.NoiseIs` | src/libply-splash-core/ply-pixel-buffer.c:518-538 | the noise begins with 0x100001, and each is three times the last in 24 bits |
| `Gradients.GradientPixelIsNear` | src/libply-splash-core/ply-pixel-buffer.c:541-580 | red, green and blue of a pixel are each that of its own row, up to two steps of noise more |
| `Gradients.LevelIsBetween` | src/libply-splash-core/ply-pixel-buffer.c:525-535 | stepping from row to row in truncated fixed point, no channel leaves the range between its two colours |
| `Gradients.DitheredIff` | src/libply-splash-core/ply-pixel-buffer.c:538-551 | dithering adds at most two steps to a channel, and the channel falls exactly when the sum carries past the top, where it starts again from 0 |
| `Gradients.WhiteGradientIsNotWhite` | src/libply-splash-core/ply-pixel-buffer.c:538-551 | so a gradient from white to white begins with a red pixel |
| `Buffers.AppendEndsIff` | src/libply/ply-buffer.c:177-207 | the loop that makes room, turn by turn, ends for any buffer if and only if the input is not exactly as long as the limit |
| `Buffers.AppendedIsSuffix` | src/libply/ply-buffer.c:177-207 | an append that ends keeps the end of what was there and what came; it ends and keeps all of it exactly when it fits |
| `Buffers.ByteBuffer.AppendBytes` | src/libply/ply-buffer.c:177-207 | the growing and trimming loop, proved against the value; for input of exactly the limit it is shown to go round without end |
| `Protocol.FrameIsRead` | src/ply-boot-server.c:241-311 | the server reads back any request of the client, and not a byte more |
| `Protocol.FramesAreRead` | src/ply-boot-server.c:241-311 | the server reads back any sequence of requests from its frames |
| `Protocol.AcceptedIsFrame` | src/ply-boot-server.c:241-311 | what the server accepts is a frame of the client, unless its argument hides a NUL |
| `Protocol.WordIsRead` | src/libply/ply-utils.c:322-334 | a 32-bit number is read back from its four bytes |
| `Protocol.ReplyIsReadIff` | src/client/ply-boot-client.c:281-407 | a reply of C strings is written, and the client makes of it what the server meant and leaves the rest of the stream, exactly when an answer is at most 1 MiB and cached passwords fit the server's buffer and the client's array |
| `Protocol.ReplyArrivesIff` | src/client/ply-boot-client.c:281-407 | what each reply is taken for, and the exact sizes, in numbers, at which answers and lists of them arrive as they were meant |
| `Protocol.GatheredIsSplitIff` | src/client/ply-boot-client.c:331-381 | the cached passwords, empty ones included, come back as the server's list exactly when their encoding is below 1044480 bytes and they are at most 130558 |
| `Protocol.GatheredIff` | src/ply-boot-server.c:651-710 | the gathering ends with all passwords in the buffer exactly when they fit; otherwise, if it ends, with the last bytes of them |
| `Protocol.GatheringEndsIff` | src/ply-boot-server.c:651-710 | it ends exactly when no password has, with its NUL, the size of the limit |
| `Protocol.JoinedIsSplit` | src/client/ply-boot-client.c:363-373 | splitting at NULs undoes joining |
| `Protocol.SplitIsJoined` | src/client/ply-boot-client.c:363-373 | joining undoes splitting a terminated payload |
| `Protocol.AddedToLatest` | src/libply/ply-array.c:95-110 | an array of pointers keeps the latest that fit |
| `Protocol.GatherPasswords` | src/ply-boot-server.c:667-680 | the loop over the cached passwords, ending or not |
| `Protocol.SplitAnswers` | src/client/ply-boot-client.c:363-373 | the loop over the payload |
| `BootClients.EveryRequestIsAccountedFor` | src/client/ply-boot-client.c:472-538 | over every run, writes failing, hangups, disconnection and writability without a request included, each request is to be sent, waiting, or called back, once |
| `BootClients.HangUpLeavesNothing` | src/client/ply-boot-client.c:862-871 | after a hangup every request asked for has been called back exactly once |
| `BootClients.WatchesAreKept` | src/client/ply-boot-client.c:472-538 | what the assertions on the two watches rely on holds after every event |
| `BootClients.IdleWatchIff` | src/client/ply-boot-client.c:492-500 | an event leaves the client watching for writability with nothing to send exactly when its only request could not be written and no reply was awaited, or it was so before and nothing was asked for; the assertion fails exactly when it is then told of writability |
| `BootClients.IsIdleIff` | src/client/ply-boot-client.c:472-538 | over every run: it watches with nothing to send exactly when some event left it so and no request came since |
| `BootClients.AbortsIff` | src/client/ply-boot-client.c:472-481 | over every run: the assertion of process_pending_requests fails exactly when such a client is told that the socket is writable |
| `BootClients.BootClient.QueueRequest` | src/client/ply-boot-client.c:503-538 | the request is queued, or fails at once when not connected |
| `BootClients.BootClient.ProcessPendingRequests` | src/client/ply-boot-client.c:472-501 | the first request is written as its frame and waits for its reply, or fails; without one the assertion fails |
| `BootClients.BootClient.ProcessIncomingReplies` | src/client/ply-boot-client.c:281-407 | the first waiting request is called back with the next reply |
| `BootClients.BootClient.CancelUnsentRequests` | src/client/ply-boot-client.c:92-121 | each unsent request fails, in order |
| `BootClients.BootClient.CancelRequestsWaitingForReplies` | src/client/ply-boot-client.c:123-152 | each waiting request fails, in order |
| `BootClients.BootClient.OnHangup` | src/client/ply-boot-client.c:862-871 | unsent requests fail before waiting ones |
| `BootClients.BootClient.Disconnect` | src/client/ply-boot-client.c:842-850 | queued requests stay queued |
| `Matching.RepliesComeInOrder` | src/client/ply-boot-client.c:281-407 | in every interleaving of client and server the k-th callback is for the k-th request sent and gets the k-th reply written |
| `Matching.EveryCallbackGetsItsOwnReply` | src/ply-boot-server.c:505-827 | when nothing is sent after a deferred request until its reply is written, every callback gets the reply the server made for that very request |
| `Matching.DisciplinedRunsAreSafe` | src/client/ply-boot-client.c:281-407 | which a client that waits until it has read the reply keeps to |
| `Matching.SendCanCrossIff` | src/ply-boot-server.c:505-827 | for a server that may reply to any request when it likes: in every state such runs reach, a send can be followed, with nothing else sent, by a callback that gets another request's reply if and only if a deferred request is waiting for its reply to be written; for the daemon itself see Precedence.OvertakesIff |
| `Matching.QuietMeansAnswered` | src/ply-boot-server.c:505-827 | and when nothing is on its way and nothing is left to answer, every request sent has had its callback |
| `Matching.UndisciplinedRepliesCross` | src/ply-boot-server.c:625-650 | without that discipline a ping overtakes a password prompt and answers it |
| `Protocol.BytesOnTheWire` | src/ply-boot-protocol.h:27-57 | requests and replies of each kind, byte by byte, both ways |
| `Answering.PasswordsAreTyped` | src/ply-boot-server.c:352-366 | over every run, the passwords kept are what was answered to password prompts at the keyboard, in order, and nothing else |
| `Answering.NoPasswordNoAnswer` | src/ply-boot-server.c:651-700 | so when no password was answered a request for cached passwords gets no answer, whatever else was typed |
| `Answering.KeysAnswerWatches` | src/daemon/plymouthd-interaction.c:317-333 | without a prompt a key answers, with itself, the first watch whose keys it occurs in, or that has none; enter, with the line, the first with a line feed in its keys |
| `Answering.KeysAnswerPrompt` | src/daemon/plymouthd-interaction.c:283-392 | with a prompt only that is answered: by Ctrl-C and Ctrl-D with Ctrl-C, by enter with the text, and by nothing that is refused |
| `Answering.PullWrites` | src/ply-boot-server.c:323-417 | a deactivation and a quit are acknowledged, and the others are told the answer or that there is none |
| `Answering.RequestsAreTold` | src/ply-boot-server.c:470-827 | what each command is told at once, ack, nak or cached passwords, is written last and everything else that is written is for triggers; deferred requests are told nothing at once |
| `Answering.DeactivationWaitsIff` | src/daemon/plymouthd-control.c:198-231 | a deactivation waits exactly when the daemon is active and another waits or there is a splash, and is done and acknowledged otherwise |
| `Answering.QuitWaitsIff` | src/daemon/plymouthd-control.c:260-308 | a quit waits exactly when another does, or when there is a splash and the daemon is active or retains it; otherwise the daemon quits, and pulls what waited before it |
| `Answering.IdleIs` | src/daemon/plymouthd-control.c:171-196 | when the splash is idle a pending quit is done and everything that waits is pulled, deactivations first; otherwise the pending deactivations are done |
| `Answering.PromptsAreQueued` | src/ply-boot-server.c:625-770 | a password, a question and a keystroke join their lists with the kind of answer they wait for, and nothing is written; a password without a splash has no answer at once |
| `Answering.FlagsAreSet` | src/daemon/plymouthd-control.c:46-127 | which shows and hides retain the splash, and that a reactivation makes active |
| `Encoding.CharacterIsOneKey` | src/libply-splash-core/ply-keyboard.c:258-370 | every character of section 3 of RFC 3629 but NUL and ESC is one key, whatever follows it |
| `Encoding.TextIsKeys` | src/libply-splash-core/ply-keyboard.c:258-370 | and any text of them is their keys |
| `Encoding.TextIsWellFormed` | src/libply/ply-utils.c:761-810 | any such text is well formed to the helpers |
| `Encoding.CharacterIsPrinted` | src/libply-splash-core/ply-terminal-emulator.c:1152-1200 | any such character that is no control character is printed as it is encoded, in one slot |
| `Encoding.BackspaceTakesOne` | src/libply/ply-utils.c:823-850 | a backspace takes the last such character, whole |
| `Encoding.TypedLineIsAnswered` | src/libply-splash-core/ply-keyboard.c:184-370 | from the bytes of the keyboard to the client: characters typed at a prompt, up to a line feed, are its answer byte for byte, and the line entered is the line so far and these characters |
| `Encoding.OtherKeysDo` | src/libply-splash-core/ply-keyboard.c:184-255 | what delete, Ctrl-V, escape, escape sequences and characters that are not decoded do to the line and to the prompt |
| `Encoding.StrayBytesBlock` | src/libply-splash-core/ply-keyboard.c:325-341 | NULs are passed over, and a byte that begins no character stays first, with everything after it |
| `Encoding.EscapeSequenceIsOneKey` | src/libply-splash-core/ply-keyboard.c:258-322 | an escape sequence up to its final byte is one key, and so is a function key of the console |
| `Precedence.OvertakesIff` | src/ply-boot-server.c:505-827 | for the daemon: in every state it can get to, let one request of a connection wait and let it read the next; that one can be answered first, with nothing more from the connection, if and only if it does not keep its turn; and if it keeps its turn, nothing whatever that may follow answers it first |
| `Precedence.OvertakenIsMisplaced` | src/ply-boot-server.c:352-417 | and a reply that comes so early has the place of a request read before, so it goes to that one's callback, if every reply is small enough to arrive whole |
| `Precedence.RepliesAreFew` | src/ply-boot-server.c:352-417 | the replies written to a connection are no more than the requests read from it, and fewer while one waits |
| `Precedence.RunStaysInPlace` | src/daemon/plymouthd-interaction.c:145-210 | over every run prompts wait in the queue, keystrokes in the list, deactivations and quits in their chains, so what a request asked for says where it waits |
| `Turns.RunInTurn` | src/daemon/plymouthd-control.c:171-308 | of two triggers of a connection the one that is ahead, in the queue of prompts, in the chains of the transition or among the watches for the same keys, is answered first or nothing is written any more, over every run |
| `Turns.DeskTakesTurns` | src/daemon/plymouthd-interaction.c:145-392 | each event of the prompts and watches, but for their own connection being cancelled, pulls the trigger that is ahead first or leaves both waiting in that order |
| `Turns.QuitInTurn` | src/daemon/plymouthd-control.c:260-308 | a quit, of anybody's, leaves the order as it is or pulls in that order |
| `Turns.BecameIdleInTurn` | src/daemon/plymouthd-control.c:171-196 | so does an idle splash |
| `Overtaking.TurnsAreKept` | src/ply-boot-server.c:505-827 | a request that queues up behind what waits is never answered before it |
| `Overtaking.ReadOvertakes` | src/ply-boot-server.c:505-827 | every other request is, in some run of the daemon |
| `Overtaking.PromptIsReached` | src/daemon/plymouthd-interaction.c:283-376 | pressing Ctrl-C answers the prompts one by one up to any given one, and leaves all that waits elsewhere |
| `Overtaking.WatchIsReached` | src/daemon/plymouthd-interaction.c:212-235 | ignoring keys answers the watches for them one by one up to any given one, and leaves watches for other keys and all that waits elsewhere |
| `Overtaking.IdleReplies` | src/daemon/plymouthd-control.c:171-196 | when the splash is idle every pending deactivation is answered, and every pending quit |
| `Overtaking.QuitsComeLast` | src/daemon/plymouthd-transition.c:143-148 | when the daemon quits, deactivations are answered before quits |
| `Overtaking.RunKeepsIdling` | src/daemon/plymouthd-control.c:198-308 | over every run, whatever deactivation or quit is pending, the splash was asked to become idle |
| `Conversations.ConversationIsMatchingRun` | src/ply-boot-server.c:470-827 | over every run of the daemon that does not hang, what it reads from and writes to one connection is what the server does in a run of the end-to-end model: one reply at once to a request that is not deferred, at most one later to one that is, if every reply is small enough to arrive whole |
| `Conversations.RequestAnswers` | src/ply-boot-server.c:470-827 | each request read adds itself to that run, with its reply at once or none |
| `Conversations.ReadIsSendable` | src/ply-boot-server.c:241-311 | every request the server can read is one a client may send |
| `Conversations.PullAnswers` | src/ply-boot-server.c:352-417 | each trigger pulled for the connection while it is there adds the reply of the request it stands for |
| `Interactions.LongTextSettles` | src/daemon/plymouthd-interaction.c:308-314 | text typed byte by byte fills its buffer to one byte below the limit, losing none before, and no further |
| `Interactions.AnswersAreIsolated` | src/daemon/plymouthd-interaction.c:145-392 | over every run one shared text delivers to each prompt, and pulls, exactly what a text of its own for each prompt would; an empty queue leaves no text |
| `Interactions.TextIsEditFold` | src/daemon/plymouthd-interaction.c:283-351 | as long as a prompt is first, the text is the fold of the accepted input and backspaces, whatever else is asked, cancelled or watched for |
| `Interactions.CancellingKeepsText` | src/daemon/plymouthd-interaction.c:237-264 | cancelling a prompt that is not first leaves the text alone, cancelling the first clears it |
| `Interactions.Interaction.QueueEntry` | src/daemon/plymouthd-interaction.c:145-162 | a prompt joins the end of the queue |
| `Interactions.Interaction.WatchKeystroke` | src/daemon/plymouthd-interaction.c:196-210 | a watch joins the list |
| `Interactions.Interaction.IgnoreKeystroke` | src/daemon/plymouthd-interaction.c:212-235 | the first watch with the same keys is answered with nothing |
| `Interactions.Interaction.CancelConnection` | src/daemon/plymouthd-interaction.c:237-281 | the two loops cancel all prompts and watches of the connection, and nothing else |
| `Interactions.Interaction.HandleInput` | src/daemon/plymouthd-interaction.c:283-333 | input is refused, cancels the prompt, is an ignored escape sequence, is appended, or answers the first matching watch |
| `Interactions.Interaction.HandleBackspace` | src/daemon/plymouthd-interaction.c:335-351 | the last character goes, if there is a prompt |
| `Interactions.Interaction.HandleEnter` | src/daemon/plymouthd-interaction.c:353-392 | the first prompt gets the text as a C string, or the first watch the line |
| `Utf8.RemoveLastCharacter` | src/libply/ply-utils.c:823-850 | the backward loop cuts at the last byte that is no continuation byte, or not at all |
| `Utf8.RemovingUndoesAppending` | src/libply/ply-utils.c:823-850 | removing undoes appending a character |
| `Utf8.WellFormedConcat` | src/libply/ply-utils.c:754-810 | a stream is well formed exactly when both parts are, the second from where the first left off |
| `Keyboards.DivisionDoesNotMatter` | src/libply-splash-core/ply-keyboard.c:257-369 | any division of a well-formed, escape-free stream into reads gives the keys of the whole stream and leaves the incomplete last character in the buffer |
| `Keyboards.CutIsHarmless` | src/libply-splash-core/ply-keyboard.c:257-369 | one cut is harmless in any escape-free stream, well formed or not |
| `Keyboards.KeysAreTheCharacters` | src/libply-splash-core/ply-keyboard.c:324-362 | the keys are the characters of the stream, whole and in order, NULs being skipped |
| `Keyboards.ResidueIsIncompleteCharacter` | src/libply-splash-core/ply-keyboard.c:343-348 | what stays is the end of the stream, and the bytes it lacks are those the character still owes |
| `Keyboards.EscapesCutApart` | src/libply-splash-core/ply-keyboard.c:281-322 | an arrow key cut after its escape gives an escape and two letters |
| `Keyboards.EscapeCutIff` | src/libply-splash-core/ply-keyboard.c:281-322 | an escape sequence of any kind may be cut between two reads exactly after more than its introducer, and never when it is a function key |
| `LineEditing.LineEraseEmptiesIff` | src/libply-splash-core/ply-keyboard.c:174-182 | for any line and text: Ctrl-U ends exactly when the line does not begin with a continuation byte; then the line is empty, the text has lost as many characters as the line had, and it is empty if and only if it begins with a character and had no more of them than the line |
| `LineEditing.ErasedIff` | src/libply/ply-utils.c:823-850 | `n` removals of the last character leave nothing if and only if the string begins with a character and has at most `n` of them |
| `LineEditing.LineEraseEndsIff` | src/libply-splash-core/ply-keyboard.c:174-182 | the loop of process_line_erase ends if and only if the line does not begin with a continuation byte |
| `LineEditing.LineEraseEmptiesThePrompt` | src/libply-splash-core/ply-keyboard.c:174-182 | after any run in which characters decode, lines are accepted and fit, Ctrl-U empties the line and the prompt's text with one backspace for each character and answers no prompt |
| `LineEditing.PlainRunsKeepStep` | src/libply-splash-core/ply-keyboard.c:184-255 | the invariant behind it: the prompt's text is a subsequence of the line's characters, whatever clients do meanwhile |
| `LineEditing.UndecodedCharactersStay` | src/libply-splash-core/ply-keyboard.c:192-246 | a character the locale does not decode survives Ctrl-U in the prompt |
| `LineEditing.RefusedAnswerStays` | src/libply-splash-core/ply-keyboard.c:227-237 | enter clears the line though the answer is refused, so what was typed survives Ctrl-U in the prompt |
| `LineEditing.LongLineHangsIff` | src/libply-splash-core/ply-keyboard.c:174-182 | a letter and `n` characters of two bytes typed on a new line make Ctrl-U go on for ever if and only if they do not fit the line's buffer |
| `LineEditing.CharsOfSum` | src/libply/ply-utils.c:823-850 | the characters of two strings laid end to end are the characters of both |
| `LineEditing.Keyboard.ProcessBackspace` | src/libply-splash-core/ply-keyboard.c:153-172 | the line loses its last character and the handlers are told |
| `LineEditing.Keyboard.ProcessLineErase` | src/libply-splash-core/ply-keyboard.c:174-182 | the loop ends with an empty line after one backspace for each character, or is shown to go on for ever |
| `LineEditing.Keyboard.ProcessKeyboardInput` | src/libply-splash-core/ply-keyboard.c:184-255 | one key: edits, handlers and order |
| `LineEditing.Keyboard.OnKeyEvent` | src/libply-splash-core/ply-keyboard.c:257-369 | the loop takes all whole keys off the buffer in order and leaves the rest, unless a line is erased for ever |
| `DaemonRuns.EveryRunKeepsInvariant` | src/ply-boot-server.c:186-204 | every run keeps: no freed connection is touched and no assertion fails; references are exact; every trigger made is held or pulled, once; connections are disconnected exactly when unlisted; prompts belong to listed connections; no deactivation is pending while inactive |
| `DaemonRuns.ReferenceCountIsExact` | src/ply-boot-server.c:186-204 | in every reachable state a connection's count is one if listed plus its triggers not yet pulled, and it is in memory exactly when that is not zero |
| `DaemonRuns.StepKeepsInvariant` | src/ply-boot-server.c:470-854 | each request, hangup, key and idle splash keeps the invariant |
| `DaemonRuns.GoneKeeps` | src/ply-boot-server.c:829-854 | a hangup cancels the connection's prompts and watches and drops the list's reference |
| `DaemonRuns.DeactivatedKeeps` | src/daemon/plymouthd-control.c:198-231 | a deactivation is pulled at once, chained, or pending, and deactivate_splash never finds the daemon inactive |
| `DaemonRuns.QuitKeeps` | src/daemon/plymouthd-control.c:260-308 | a quit is chained, pending, or completes every pending trigger |
| `DaemonRuns.BecameIdleKeeps` | src/daemon/plymouthd-control.c:171-196 | when the splash is idle quitting takes precedence and keeps the invariant |
| `DaemonAnswers.NothingIsWrittenAfterHangup` | src/ply-boot-server.c:829-854 | from the step in which it hangs up or is dropped, a connection is never written to |
| `DaemonAnswers.EachRequestIsAnsweredAtMostOnce` | src/ply-boot-server.c:352-417 | in every run no deferred request has two replies |
| `DaemonAnswers.PulledIsAnswered` | src/ply-boot-server.c:352-417 | a trigger pulled while its connection is there writes exactly its answer |
| `Hangs.RunHangsIff` | src/ply-boot-server.c:667-680 | a run leaves the daemon hung exactly when its last step is a request for cached passwords while one of them has, with its NUL, the size of the limit |
| `Hangs.LongPasswordHangsIff` | src/ply-boot-server.c:651-680 | a client asks for a password, somebody types a key `n` times and enter, and the next request for cached passwords hangs the daemon if and only if `n` is at least 1044479 |
| `References.DeskConserves` | src/daemon/plymouthd-interaction.c:145-392 | no event of the prompts and watches loses or copies a trigger |
| `References.PullKeepsCount` | src/ply-boot-server.c:352-417 | pulling a trigger drops exactly its reference |
| `Plymouthd.TransitionState.QueueDeactivate` | src/daemon/plymouthd-transition.c:26-69 | the trigger is pending, or chained to the pending one |
| `Plymouthd.TransitionState.QueueQuit` | src/daemon/plymouthd-transition.c:71-81 | the same, and only the first says whether to retain the splash |
| `Plymouthd.TransitionState.CompleteDeactivate` | src/daemon/plymouthd-transition.c:136-141 | the daemon is inactive and all chained triggers are handed over in order |
| `Plymouthd.TransitionState.CompleteAll` | src/daemon/plymouthd-transition.c:143-148 | deactivations are handed over before quits |
| `Plymouthd.Plymouthd.PullTrigger` | src/ply-boot-server.c:352-417 | the answer is written unless disconnected, a password is cached either way, and the reference is dropped |
| `Plymouthd.Plymouthd.PullAll` | src/ply-boot-server.c:352-417 | every connection called back is still in memory |
| `Plymouthd.Plymouthd.DropReference` | src/ply-boot-server.c:192-204 | the connection is freed at zero |
| `Plymouthd.Plymouthd.HandleDeactivate` | src/daemon/plymouthd-control.c:198-231 | the branches on inactive, pending and splash |
| `Plymouthd.Plymouthd.HandleQuit` | src/daemon/plymouthd-control.c:260-308 | the branches on pending, inactive, retaining and splash |
| `Plymouthd.Plymouthd.OnBootSplashIdle` | src/daemon/plymouthd-control.c:171-196 | quit first, then deactivate |
| `Plymouthd.Plymouthd.OnHangup` | src/ply-boot-server.c:829-854 | marked first, then cancelled, then unlisted and dropped |
| `Plymouthd.Plymouthd.OnNewConnection` | src/ply-boot-server.c:856-877 | a new connection is listed with one reference |
| `Plymouthd.Plymouthd.OnPasswordRequest` | src/daemon/plymouthd-actions.c:93-129 | answered at once without a splash that is shown or coming, else queued |
| `Plymouthd.Plymouthd.OnRequest` | src/ply-boot-server.c:470-827 | the dispatch on the command, with its immediate and deferred replies, or none when it hangs |
| `Plymouthd.Plymouthd.OnCachedPasswordRequest` | src/ply-boot-server.c:651-710 | the passwords are gathered by the loop before anything is written; if that does not end, nothing is |
| `Plymouthd.Plymouthd.OnData` | src/ply-boot-server.c:470-490 | a request is read and served, or the connection is dropped |
| `Plymouthd.Plymouthd.OnKeyboardInput` | src/daemon/plymouthd-input.c:39-48 | input goes to the prompts and pulls what they answer |
| `Plymouthd.Plymouthd.OnBackspace` | src/daemon/plymouthd-input.c:50-55 | a backspace edits the text and answers nobody |
| `Plymouthd.Plymouthd.OnEnter` | src/daemon/plymouthd-input.c:57-64 | enter pulls the trigger of the first prompt or watch it answers |
| `KernelMessages.UnhexmangleInPlace` | src/libply-splash-core/ply-kmsg-reader.c:41-65 | run on its own input, the decoder gives what it would make of the original bytes; writing never passes reading and the terminator is in bounds |
| `KernelMessages.DecodingUndoesEscaping` | src/libply-splash-core/ply-kmsg-reader.c:41-65 | decoding undoes every \xHH encoding that escapes at least NUL and the backslash |
| `KernelMessages.ShortBudgetIff` | src/libply-splash-core/ply-kmsg-reader.c:52-62 | a budget that ends one to three characters into the escape of a byte leaves those characters as they are; that is still a beginning of the text if and only if the byte is a backslash and the text goes on as its escape does |

## Left out

- Sockets, file descriptors, terminals, udev, xkb, module loading, logging and tracing: input and output, or calls into other libraries.
- `plymouth.c`, settings, themes, policy, progress and step bars, device manager and renderers: easy, or foreign.
- Resizing, rotating by an angle, tiling and interpolating pixels: floating point. Where scales differ, the interpolated pixel is a function given to the operation.
- Malformed UTF-8 in the emulator: the source drops and combines such bytes in ways no claim about chunks survives.
- Showing escape sequences for debugging: the emulator is modelled with that switch off.
- Whether `@` and `P` near the right edge do what ECMA-48 asks: they do not; the model does what the code does.
- Widths and areas of size_t and long: unbounded numbers here, but for the wrap-around the shifting loops of `@` and `P` and the kernel-message budget rely on. Terminals of 2147483648 columns or more are not claimed anything about.
- SequenceDoes: CSI @ on a line with more characters than the screen has columns, which nothing printed makes, and on screens of 2147483648 columns or more.
- The limit on the array behind a line of text: a line has as many slots as it needs.
- Memory other than that of connections: what is freed, and when.
- That a deactivation or quit pending on a splash that is hidden or reloaded meanwhile is ever completed: safety only.
- Callbacks that call back into the client, and failed writes of the daemon: a handler runs to its end, and a write is made whole.
- Multi-byte conversion state that `mbrtowc` keeps between keys: decoding depends on the key alone.
- Which keyboards are watched: a key may come at any time. A pending deactivation or quit switches them off, and a reload, a show or a new display switches them on again.
- Gradients on rotated buffers in `Pictures.RotationRefines`: rows are dithered pixel by pixel there, and eight pixels at a time on an upright buffer.
- Events after the daemon has left its loop to quit: there are none.
- Two canvases sharing memory: the source of a blit is another buffer.
