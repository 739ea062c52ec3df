# Line editor model

A Dafny model of the `TextEditor` engine of a minimal line-oriented text
editor. The editor holds a buffer of lines, a zero-based current line, a
flag for unsaved changes and a file name. Single-letter commands act on
that state:

- `J` moves the current line.
- `I` puts text in front of the current line.
- `A` adds a line after the current line and makes it current.
- `D` removes a one-based inclusive range of lines.
- `L` lists such a range.
- `W` saves the buffer.
- `Q` quits, after offering to save unsaved changes.

The project has three modules:

- `FileFormat` (`file_format.dfy`) is the on-disk format. `Serialize` writes
  each line followed by `"\n"`. `Lines` splits a file the way a loop of
  `getline` calls does, one `GetLine` at a time. Two lemmas prove the round
  trips in both directions.
- `Commands` (`commands.dfy`) states each command as a function from one
  `EditorState` to the next, with its error report. Each function's
  `ensures` gives the command's meaning: when it succeeds, which lines
  change and how, and what is left as it was. The lemmas at the end relate
  several commands to each other.
- `LineEditor` (`text_editor.dfy`) is the class `TextEditor` with the
  source's four fields, updated in place. Every mutating method ensures
  that its new state and report are those of its `Commands` function
  applied to the old state. `L` and `SaveBufferToFile` only read the
  object. They are loops proved against `List` and `Serialize`.

Edge cases of the editor that the model keeps:

- A named file that cannot be opened leaves the buffer with no lines (not
  a single empty line), and the file name is still remembered.
- `D` never moves the current line. After a deletion the current line can
  point past the end of the buffer, so the invariant
  `0 <= currentLine < |buffer|` does not survive every mutating command.
  `Commands.DeleteCanStrandCursor` exhibits this case.
  `Commands.CommandsOtherThanDeleteKeepCursor` proves that every other
  command keeps the invariant.
- `J -1` on an empty buffer sets the current line to -1, because the
  unsigned `size() - 1` wraps around. The guards of `I` and `A` compare a
  signed line with an unsigned size, so they reject a negative current
  line. Both guards are modelled as `0 <= currentLine < |buffer|`.

## Model

| member | source | states |
|---|---|---|
| FileFormat.Serialize | line-editor.cpp:215-228 | the written text is empty exactly for the empty buffer and otherwise ends in a newline |
| FileFormat.SerializeSnoc | line-editor.cpp:220-223 | writing one more line appends that line and a newline to the text |
| FileFormat.GetLine | line-editor.cpp:21 | one `getline`: a newline-free line, after which the rest of the input follows its newline, or the whole input when it has no newline |
| FileFormat.Lines | line-editor.cpp:17-24 | the lines read never contain a newline; there are none exactly when the file is empty, and never more than its characters |
| FileFormat.LinesOfSerialize | line-editor.cpp:220-223 | reading back a written buffer whose lines have no newline gives the same buffer |
| FileFormat.SerializeOfLines | line-editor.cpp:21-24 | writing back what was read gives the file, plus a final newline if its last line lacked one |
| FileFormat.FormatExamples | line-editor.cpp:21-24 | `[]` and `""` correspond, `[""]` and `"\n"` correspond, and an interior empty line is kept |
| Commands.Initial | line-editor.cpp:13-36 | a new editor is at line 0, clean, with the given name; with no name its buffer is one empty line; with an unreadable file it has no lines; otherwise its lines hold no newline and write back to exactly the file read (plus a final newline if it lacked one), which fixes them uniquely; it has a current line exactly when no name is given or the named file is readable and non-empty |
| Commands.LoadOutcome | line-editor.cpp:27-30 | an error is reported exactly when a named file cannot be opened, and the buffer is then empty |
| Commands.Jump | line-editor.cpp:89-107 | succeeds exactly for 0, -1 and 1..N; 0 selects the first line, -1 the last, n the line n; a non-empty buffer then has a valid current line; a rejected number changes nothing |
| Commands.Insert | line-editor.cpp:109-120 | succeeds exactly when the current line is valid; that line becomes text + old content, every other line and the count stay, the buffer is marked changed; otherwise nothing changes |
| Commands.List | line-editor.cpp:122-153 | succeeds exactly when the start (0 read as 1) and the end (or -1) lie in the buffer in order; the output is lines start..end in order, or line start alone for end -1 |
| Commands.Delete | line-editor.cpp:155-172 | succeeds exactly for 1 <= start <= end <= N, start -1 meaning the current line; removes exactly those lines, keeps the lines before and shifts the lines after, keeps the current line, marks the buffer changed; otherwise nothing changes |
| Commands.Append | line-editor.cpp:174-193 | succeeds exactly when the current line is valid; one line holding the text is added right after it and becomes current, all other lines keep their order, the buffer is marked changed; otherwise nothing changes |
| Commands.Write | line-editor.cpp:58-87 | succeeds exactly when the file opens and a name is given or remembered; it then writes the serialized buffer there, remembers the name and clears the changed mark; otherwise nothing changes and the missing name or the write error is reported |
| Commands.Quit | line-editor.cpp:195-208 | always quits; saves to the remembered file exactly when there are unsaved changes, the answer is Y or y, a name is remembered and the file opens; the changed mark is cleared exactly when that save happens; the save's error (missing name or write error) is reported exactly when it is attempted and fails |
| Commands.DeleteCanStrandCursor | line-editor.cpp:155-172 | for every buffer whose last line is current, `D -1 -1` removes that line and leaves the current line past the end; `I` and `A` are then refused, and `J -1` makes the current line valid again whenever a line is left |
| Commands.DeleteStrandsCursorExample | line-editor.cpp:163-167 | one instance: `D 2 2` on two lines at line 2 leaves the current line past the end of `["first"]` |
| Commands.CommandsKeepNoNewlines | line-editor.cpp:89-208 | given text without a newline (as `getline` reads it), no command puts a newline into a line of the buffer, so `SaveThenReload` applies to every state the editor reaches |
| Commands.JumpToLastOfEmptyBuffer | line-editor.cpp:95-98 | `J -1` on an empty buffer sets the current line to -1, after which `I` is refused |
| Commands.CommandsOtherThanDeleteKeepCursor | line-editor.cpp:58-208 | `J`, `I`, `A`, `W` and `Q` keep a valid current line valid |
| Commands.AppendThenDeleteCurrent | line-editor.cpp:155-193 | `D -1 -1` right after `A text` restores the buffer |
| Commands.EditsShowInListing | line-editor.cpp:109-193 | after `A text` the current line lists as the text; after `I text` it lists as the text before its old content |
| Commands.ListAll | line-editor.cpp:136-143 | listing from line 0 or 1 to line N shows the whole buffer |
| Commands.SaveThenReload | line-editor.cpp:58-66 | starting the editor on a file just saved gives back the saved lines when none holds a newline |
| Commands.WriteIsIdempotent | line-editor.cpp:76-81 | a second save without a name after a successful save succeeds and writes the same file and content |
| Commands.EditSession | line-editor.cpp:174-193 | start empty, `A hello`, `I X`, `D 1 1`, `W out.txt`: the buffers are as expected and the file holds exactly `Xhello\n` |
| Commands.InvertedRangeRefused | line-editor.cpp:136-147 | for every three-line state, `L 2 1` and `D 2 1` are refused with the line-numbers error and `D` changes nothing |
| Commands.SaveWithoutNameRefused | line-editor.cpp:72-75 | `W` with no name given or remembered reports the missing name and writes nothing |
| LineEditor.TextEditor.constructor | line-editor.cpp:13-36 | the `getline` loop leaves the fields equal to `Initial` |
| LineEditor.TextEditor.SaveBufferToFile | line-editor.cpp:215-228 | reports whether the file opened and then writes exactly the serialized buffer to the named file |
| LineEditor.TextEditor.W | line-editor.cpp:58-87 | new fields, report and written file are those of `Write` |
| LineEditor.TextEditor.J | line-editor.cpp:89-107 | new fields and report are those of `Jump` |
| LineEditor.TextEditor.I | line-editor.cpp:109-120 | new fields and report are those of `Insert` |
| LineEditor.TextEditor.L | line-editor.cpp:122-153 | the lines shown, or the error, are those of `List`; no field changes |
| LineEditor.TextEditor.D | line-editor.cpp:155-172 | new fields and report are those of `Delete` |
| LineEditor.TextEditor.A | line-editor.cpp:174-193 | new fields and report are those of `Append` |
| LineEditor.TextEditor.Q | line-editor.cpp:195-208 | new fields, quit signal, save report and written file are those of `Quit` |

## Left out

- `main`'s command loop and its token reading (line-editor.cpp:238-305) are console input. The model starts at the calls the loop makes.
- Console and error-stream output is not modelled. Errors are returned as an `Error` value. `L` returns the lines it would print.
- `ListLines` (line-editor.cpp:230-236) is never called. It repeats the range loop of `L`.
- Opening files is a parameter. Whether a file opens for writing is the `canOpen` argument. A file read at start-up is its text, or `None` when it cannot be opened.
- A write that fails after the file has opened is not modelled. The source does not check for it either.
- The answer to the save prompt of `Q` is read from the console. It is the `response` argument here.
- The start-up error report is not returned by the constructor, which returns nothing. It is given by the separate function `Commands.LoadOutcome`.
- Integers are mathematical. The source's 32-bit `int` is not modelled: on buffers of 2^31 lines or more, `currentLine + 1` in `D` and `currentLine++` in `A` can overflow, and `J -1` truncates `size() - 1` to `int` once the buffer exceeds 2^31 lines. The signed/unsigned comparisons are modelled only where they matter: the wrap of `J -1` and the guards of `I` and `A`.
- `A` inserts `""` in one branch and the text in the other when the text is empty. Both branches have the same effect, so the model has one branch.
