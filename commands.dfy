/** The editor's commands as functions from one editor state to the next.
    Each function is the specification of the corresponding method of
    `LineEditor.TextEditor`; the lemmas at the end relate several commands. */
module Commands {
  import opened FileFormat

  datatype Option<T> = None | Some(value: T)

  /** The conditions the editor reports on its error stream. */
  datatype Error =
    | OpeningFile         // "Error opening file."
    | WritingFile         // "Error writing to file."
    | FilenameRequired    // "A filename must be given."
    | InvalidLineNumber   // "Invalid line number."
    | InvalidCurrentLine  // "Invalid current line."
    | InvalidLineNumbers  // "Invalid line numbers."

  /** What a command reports: nothing, or one error message. */
  datatype Outcome = Done | Failed(error: Error)

  datatype Result<T> = Ok(value: T) | Err(error: Error)

  /** The four fields of the editor: the lines, the zero-based current line,
      whether there are unsaved changes, and the file name (empty if none). */
  datatype EditorState = EditorState(
    buffer: seq<string>,
    currentLine: int,
    dirty: bool,
    filename: string)

  datatype Step = Step(state: EditorState, outcome: Outcome)

  /** A file written by a save: its name and its full new content. */
  datatype SavedFile = SavedFile(name: string, content: string)

  datatype WriteStep = WriteStep(state: EditorState, outcome: Outcome, saved: Option<SavedFile>)

  datatype QuitStep = QuitStep(state: EditorState, outcome: Outcome, quit: bool, saved: Option<SavedFile>)

  /** The current line names a line of the buffer. */
  predicate CursorValid(s: EditorState)
  {
    0 <= s.currentLine < |s.buffer|
  }

  /** The one change every successful edit makes besides the buffer. */
  predicate EditedFrom(t: EditorState, s: EditorState)
  {
    t.dirty && t.filename == s.filename
  }

  /** A file's text, with a newline added when its last line has none. */
  function WithFinalNewline(text: string): string
  {
    if text == [] || text[|text| - 1] == '\n' then text else text + "\n"
  }

  /** The state a new editor starts in. `content` is the text of the named
      file, or None when it cannot be opened. */
  function Initial(filename: string, content: Option<string>): (s: EditorState)
    ensures s.currentLine == 0 && !s.dirty && s.filename == filename
    ensures CursorValid(s) <==> filename == "" || (content.Some? && content.value != "")
    ensures NoNewlines(s.buffer)
    ensures filename == "" ==> s.buffer == [""]
    ensures filename != "" && content.None? ==> s.buffer == []
    ensures filename != "" && content.Some? ==>
      Serialize(s.buffer) == WithFinalNewline(content.value)
  {
    var buffer :=
      if filename == "" then [""]
      else if content.None? then []
      else Lines(content.value);
    assert filename != "" && content.Some? ==> Serialize(buffer) == WithFinalNewline(content.value) by {
      if filename != "" && content.Some? {
        SerializeOfLines(content.value);
      }
    }
    EditorState(buffer, 0, false, filename)
  }

  /** The error an unreadable file reports at start-up. */
  function LoadOutcome(filename: string, content: Option<string>): (r: Outcome)
    ensures r.Failed? <==> filename != "" && content.None?
    ensures r.Failed? ==> r.error == OpeningFile && Initial(filename, content).buffer == []
  {
    if filename != "" && content.None? then Failed(OpeningFile) else Done
  }

  /** `J n`: 0 is the first line, -1 the last, 1..N a one-based line number;
      any other number is rejected and nothing changes. */
  function Jump(s: EditorState, lineNumber: int): (r: Step)
    ensures r.state.buffer == s.buffer && r.state.dirty == s.dirty && r.state.filename == s.filename
    ensures r.outcome.Done? <==> lineNumber == 0 || lineNumber == -1 || 1 <= lineNumber <= |s.buffer|
    ensures r.outcome.Failed? ==> r == Step(s, Failed(InvalidLineNumber))
    ensures r.outcome.Done? && s.buffer != [] ==> CursorValid(r.state)
    ensures 1 <= lineNumber <= |s.buffer| ==> r.state.currentLine + 1 == lineNumber
    ensures lineNumber == 0 ==> r.state.currentLine == 0
    ensures lineNumber == -1 ==> r.state.currentLine + 1 == |s.buffer|
  {
    if lineNumber == 0 then Step(s.(currentLine := 0), Done)
    else if lineNumber == -1 then Step(s.(currentLine := |s.buffer| - 1), Done)
    else if 0 < lineNumber <= |s.buffer| then Step(s.(currentLine := lineNumber - 1), Done)
    else Step(s, Failed(InvalidLineNumber))
  }

  /** `I text`: put `text` in front of the current line. */
  function Insert(s: EditorState, text: string): (r: Step)
    ensures r.outcome.Done? <==> CursorValid(s)
    ensures r.outcome.Failed? ==> r == Step(s, Failed(InvalidCurrentLine))
    ensures r.outcome.Done? ==>
      && |r.state.buffer| == |s.buffer|
      && r.state.buffer[s.currentLine] == text + s.buffer[s.currentLine]
      && (forall k :: 0 <= k < |s.buffer| && k != s.currentLine ==> r.state.buffer[k] == s.buffer[k])
      && r.state.currentLine == s.currentLine
      && CursorValid(r.state)
      && EditedFrom(r.state, s)
  {
    if 0 <= s.currentLine < |s.buffer| then
      var c := s.currentLine;
      Step(s.(buffer := s.buffer[c := text + s.buffer[c]], dirty := true), Done)
    else
      Step(s, Failed(InvalidCurrentLine))
  }

  /** The first line `L` shows: a start of 0 means line 1. */
  function FirstListed(startLine: int): int
  {
    if startLine == 0 then 1 else startLine
  }

  /** `L start end`: the lines from `start` to `end`, one-based and inclusive;
      an `end` of -1 means the single line `start`. */
  function List(buffer: seq<string>, startLine: int, endLine: int): (r: Result<seq<string>>)
    ensures var first := FirstListed(startLine);
      r.Ok? <==> 1 <= first <= |buffer| && (endLine == -1 || first <= endLine <= |buffer|)
    ensures r.Err? ==> r.error == InvalidLineNumbers
    ensures r.Ok? ==> var first := FirstListed(startLine);
      && |r.value| == (if endLine == -1 then 1 else endLine - first + 1)
      && forall k :: 0 <= k < |r.value| ==> r.value[k] == buffer[first - 1 + k]
  {
    var first := FirstListed(startLine);
    if 0 < first <= |buffer| then
      if endLine == -1 then Ok([buffer[first - 1]])
      else if 0 < endLine <= |buffer| && endLine >= first then Ok(buffer[first - 1..endLine])
      else Err(InvalidLineNumbers)
    else Err(InvalidLineNumbers)
  }

  /** The one-based range `D` removes: a start of -1 means the current line. */
  function DeleteRange(s: EditorState, startLine: int, endLine: int): (int, int)
  {
    if startLine == -1 then (s.currentLine + 1, s.currentLine + 1) else (startLine, endLine)
  }

  /** `D start end`: remove lines `start` to `end`, one-based and inclusive.
      The current line is left where it was, even past the new end. */
  function Delete(s: EditorState, startLine: int, endLine: int): (r: Step)
    ensures var (first, last) := DeleteRange(s, startLine, endLine);
      r.outcome.Done? <==> 1 <= first <= last <= |s.buffer|
    ensures r.outcome.Failed? ==> r == Step(s, Failed(InvalidLineNumbers))
    ensures r.outcome.Done? ==> var (first, last) := DeleteRange(s, startLine, endLine);
      && |r.state.buffer| == |s.buffer| - (last - first + 1)
      && (forall k :: 0 <= k < first - 1 ==> r.state.buffer[k] == s.buffer[k])
      && (forall k :: first - 1 <= k < |r.state.buffer| ==> r.state.buffer[k] == s.buffer[k + (last - first + 1)])
      && r.state.currentLine == s.currentLine
      && EditedFrom(r.state, s)
  {
    var (first, last) := DeleteRange(s, startLine, endLine);
    if 0 < first <= |s.buffer| && 0 < last <= |s.buffer| && first <= last then
      Step(s.(buffer := s.buffer[..first - 1] + s.buffer[last..], dirty := true), Done)
    else
      Step(s, Failed(InvalidLineNumbers))
  }

  /** `A text`: a new line holding `text` after the current line, which then
      becomes current. */
  function Append(s: EditorState, text: string): (r: Step)
    ensures r.outcome.Done? <==> CursorValid(s)
    ensures r.outcome.Failed? ==> r == Step(s, Failed(InvalidCurrentLine))
    ensures r.outcome.Done? ==>
      && |r.state.buffer| == |s.buffer| + 1
      && r.state.currentLine == s.currentLine + 1
      && CursorValid(r.state)
      && r.state.buffer[r.state.currentLine] == text
      && (forall k :: 0 <= k <= s.currentLine ==> r.state.buffer[k] == s.buffer[k])
      && (forall k :: s.currentLine + 1 < k < |r.state.buffer| ==> r.state.buffer[k] == s.buffer[k - 1])
      && EditedFrom(r.state, s)
  {
    if 0 <= s.currentLine < |s.buffer| then
      var c := s.currentLine;
      Step(s.(buffer := s.buffer[..c + 1] + [text] + s.buffer[c + 1..], currentLine := c + 1, dirty := true), Done)
    else
      Step(s, Failed(InvalidCurrentLine))
  }

  /** The file a save goes to: the name given, else the remembered one. */
  function Destination(s: EditorState, filename: string): string
  {
    if filename != "" then filename else s.filename
  }

  /** `W name`: save to `name`, or to the remembered file when no name is
      given. `canOpen` is whether the file could be opened for writing. */
  function Write(s: EditorState, filename: string, canOpen: bool): (r: WriteStep)
    ensures r.state.buffer == s.buffer && r.state.currentLine == s.currentLine
    ensures r.outcome.Done? <==> canOpen && Destination(s, filename) != ""
    ensures r.outcome.Done? ==>
      && r.saved == Some(SavedFile(Destination(s, filename), Serialize(s.buffer)))
      && r.state.filename == Destination(s, filename) != ""
      && !r.state.dirty
    ensures r.outcome.Failed? ==>
      && r.state == s && r.saved == None
      && r.outcome.error == (if Destination(s, filename) == "" then FilenameRequired else WritingFile)
  {
    if filename != "" then
      if canOpen then
        WriteStep(s.(filename := filename, dirty := false), Done, Some(SavedFile(filename, Serialize(s.buffer))))
      else WriteStep(s, Failed(WritingFile), None)
    else if s.filename == "" then
      WriteStep(s, Failed(FilenameRequired), None)
    else if canOpen then
      WriteStep(s.(dirty := false), Done, Some(SavedFile(s.filename, Serialize(s.buffer))))
    else
      WriteStep(s, Failed(WritingFile), None)
  }

  /** The answers to the save prompt that mean yes. */
  predicate Affirmative(response: string)
  {
    response == "Y" || response == "y"
  }

  /** `Q`: with unsaved changes, ask whether to save, and save to the
      remembered file on yes. Quitting always goes ahead, whatever the save
      reports. */
  function Quit(s: EditorState, response: string, canOpen: bool): (r: QuitStep)
    ensures r.quit
    ensures r.state.buffer == s.buffer && r.state.currentLine == s.currentLine && r.state.filename == s.filename
    ensures r.saved.Some? <==> s.dirty && Affirmative(response) && canOpen && s.filename != ""
    ensures r.saved.Some? ==> r.saved.value == SavedFile(s.filename, Serialize(s.buffer))
    ensures r.state.dirty <==> s.dirty && r.saved.None?
    ensures r.outcome.Failed? <==> s.dirty && Affirmative(response) && (!canOpen || s.filename == "")
    ensures r.outcome.Failed? ==>
      r.outcome.error == (if s.filename == "" then FilenameRequired else WritingFile)
  {
    if s.dirty && Affirmative(response) then
      var w := Write(s, s.filename, canOpen);
      QuitStep(w.state, w.outcome, true, w.saved)
    else
      QuitStep(s, Done, true, None)
  }

  // Properties that relate several commands.

  /** Deleting the current line when it is the last one leaves the current
      line past the end of the buffer, after which `I` and `A` are refused
      until a `J`; `J -1` recovers whenever a line is left. */
  lemma DeleteCanStrandCursor(s: EditorState, text: string)
    requires CursorValid(s) && s.currentLine == |s.buffer| - 1
    ensures var d := Delete(s, -1, -1);
      && d.outcome == Done && d.state.buffer == s.buffer[..|s.buffer| - 1]
      && !CursorValid(d.state)
      && Insert(d.state, text).outcome == Failed(InvalidCurrentLine)
      && Append(d.state, text).outcome == Failed(InvalidCurrentLine)
      && (|s.buffer| > 1 ==> CursorValid(Jump(d.state, -1).state))
  {
  }

  /** A concrete instance: on `["first", "second"]` at line 2, `D 2 2`
      leaves the current line past the end. */
  lemma DeleteStrandsCursorExample()
    ensures var s := EditorState(["first", "second"], 1, false, "");
      var d := Delete(s, 2, 2);
      && d.outcome == Done && d.state.buffer == ["first"]
      && !CursorValid(d.state)
      && Insert(d.state, "x").outcome == Failed(InvalidCurrentLine)
      && CursorValid(Jump(d.state, -1).state)
  {
  }

  /** Lines typed at the prompt hold no newline, so no command puts one
      into the buffer: every command keeps `NoNewlines`. */
  lemma CommandsKeepNoNewlines(s: EditorState, text: string, n: int, startLine: int, endLine: int,
                               filename: string, canOpen: bool, response: string)
    requires NoNewlines(s.buffer) && '\n' !in text
    ensures NoNewlines(Jump(s, n).state.buffer)
    ensures NoNewlines(Insert(s, text).state.buffer)
    ensures NoNewlines(Append(s, text).state.buffer)
    ensures NoNewlines(Delete(s, startLine, endLine).state.buffer)
    ensures NoNewlines(Write(s, filename, canOpen).state.buffer)
    ensures NoNewlines(Quit(s, response, canOpen).state.buffer)
  {
  }

  /** `J -1` on an empty buffer makes the current line -1. */
  lemma JumpToLastOfEmptyBuffer(s: EditorState)
    requires s.buffer == []
    ensures Jump(s, -1).outcome == Done && Jump(s, -1).state.currentLine == -1
    ensures Insert(Jump(s, -1).state, "x").outcome.Failed?
  {
  }

  /** Every command except `D` keeps the current line on a line of the
      buffer; only `D` can break that. */
  lemma CommandsOtherThanDeleteKeepCursor(s: EditorState, n: int, text: string, filename: string,
                                          canOpen: bool, response: string)
    requires CursorValid(s)
    ensures CursorValid(Jump(s, n).state)
    ensures CursorValid(Insert(s, text).state)
    ensures CursorValid(Append(s, text).state)
    ensures CursorValid(Write(s, filename, canOpen).state)
    ensures CursorValid(Quit(s, response, canOpen).state)
  {
  }

  /** Deleting the current line right after appending it restores the
      buffer: `D -1 -1` undoes `A text`. */
  lemma AppendThenDeleteCurrent(s: EditorState, text: string)
    requires CursorValid(s)
    ensures var a := Append(s, text).state;
      Delete(a, -1, -1).outcome == Done && Delete(a, -1, -1).state.buffer == s.buffer
  {
  }

  /** After `A text` the current line lists as `text`; after `I text` it
      lists as `text` followed by its old content. */
  lemma EditsShowInListing(s: EditorState, text: string)
    requires CursorValid(s)
    ensures List(Append(s, text).state.buffer, s.currentLine + 2, -1) == Ok([text])
    ensures List(Insert(s, text).state.buffer, s.currentLine + 1, -1) == Ok([text + s.buffer[s.currentLine]])
  {
  }

  /** Listing from line 1 to the last line shows the whole buffer. */
  lemma ListAll(buffer: seq<string>)
    requires buffer != []
    ensures List(buffer, 0, |buffer|) == Ok(buffer)
    ensures List(buffer, 1, |buffer|) == Ok(buffer)
  {
    assert buffer[0..|buffer|] == buffer;
  }

  /** A save followed by starting the editor on the saved file gives back
      the same lines, when no line holds a newline. */
  lemma SaveThenReload(s: EditorState, filename: string)
    requires NoNewlines(s.buffer)
    requires Write(s, filename, true).outcome.Done?
    ensures var f := Write(s, filename, true).saved.value;
      Initial(f.name, Some(f.content)).buffer == s.buffer
  {
    LinesOfSerialize(s.buffer);
  }

  /** A save that reports no error leaves nothing unsaved, and a second save
      to the same place writes the same content. */
  lemma WriteIsIdempotent(s: EditorState, filename: string)
    requires Write(s, filename, true).outcome.Done?
    ensures var w := Write(s, filename, true);
      Write(w.state, "", true) == WriteStep(w.state, Done, w.saved)
  {
  }

  /** An editing session: start with no file, append "hello", put "X" in
      front of it, delete line 1 and save to "out.txt". */
  lemma EditSession()
    ensures var s0 := Initial("", None);
      var s1 := Append(s0, "hello");
      var s2 := Insert(s1.state, "X");
      var s3 := Delete(s2.state, 1, 1);
      var s4 := Write(s3.state, "out.txt", true);
      && s0.buffer == [""] && s0.currentLine == 0
      && s1.state.buffer == ["", "hello"] && s1.state.currentLine == 1 && s1.state.dirty
      && s2.state.buffer == ["", "Xhello"]
      && s3.state.buffer == ["Xhello"]
      && s4.saved == Some(SavedFile("out.txt", "Xhello\n"))
      && !s4.state.dirty && s4.state.filename == "out.txt"
  {
    var s0 := Initial("", None);
    var s1 := Append(s0, "hello");
    assert s1.state.buffer == ["", "hello"];
    var s2 := Insert(s1.state, "X");
    assert "X" + "hello" == "Xhello";
    assert s2.state.buffer == ["", "Xhello"];
    var s3 := Delete(s2.state, 1, 1);
    assert s3.state.buffer == ["Xhello"];
    assert Serialize(["Xhello"]) == "Xhello" + "\n" + Serialize([]);
    assert "Xhello" + "\n" + "" == "Xhello\n";
  }

  /** `L 2 1` and `D 2 1` on a three-line buffer are refused: the end is
      before the start. */
  lemma InvertedRangeRefused(s: EditorState)
    requires |s.buffer| == 3
    ensures List(s.buffer, 2, 1) == Err(InvalidLineNumbers)
    ensures Delete(s, 2, 1) == Step(s, Failed(InvalidLineNumbers))
  {
  }

  /** A save with no name given and no remembered file writes nothing. */
  lemma SaveWithoutNameRefused(s: EditorState, canOpen: bool)
    requires s.filename == ""
    ensures Write(s, "", canOpen) == WriteStep(s, Failed(FilenameRequired), None)
  {
  }
}
