/** The editor object: its four fields are updated in place by the
    single-letter commands. Every method's new state and report are those of
    the matching function of module `Commands`, applied to the state before
    the call. */
module LineEditor {
  import opened FileFormat
  import opened Commands

  class TextEditor {
    var buffer: seq<string>
    var currentLine: int
    var bufferDirty: bool
    var currentFilename: string

    /** The editor's fields as one value. */
    function Snapshot(): EditorState
      reads this
    {
      EditorState(buffer, currentLine, bufferDirty, currentFilename)
    }

    /** Starts with one empty line when no file is named; otherwise reads the
        named file line by line. `content` is that file's text, or None when
        it cannot be opened, in which case the buffer stays empty (the error
        reported is `LoadOutcome`). */
    constructor (filename: string := "", content: Option<string> := None)
      ensures Snapshot() == Initial(filename, content)
    {
      var lines: seq<string> := [];
      if filename != "" {
        if content.Some? {
          var rest := content.value;
          while rest != []
            invariant lines + Lines(rest) == Lines(content.value)
            decreases |rest|
          {
            var got := GetLine(rest);
            lines := lines + [got.0];
            rest := got.1;
          }
        }
      } else {
        lines := [""];
      }
      buffer := lines;
      currentLine := 0;
      bufferDirty := false;
      currentFilename := filename;
    }

    /** Writes every line followed by a newline to `filename`, when the file
        could be opened; returns whether it was, and the file written. */
    method SaveBufferToFile(filename: string, canOpen: bool) returns (ok: bool, written: Option<SavedFile>)
      ensures ok == canOpen
      ensures written == if ok then Some(SavedFile(filename, Serialize(buffer))) else None
    {
      if !canOpen {
        return false, None;
      }
      var content := "";
      for i := 0 to |buffer|
        invariant content == Serialize(buffer[..i])
      {
        SerializeSnoc(buffer[..i], buffer[i]);
        assert buffer[..i + 1] == buffer[..i] + [buffer[i]];
        content := content + buffer[i] + "\n";
      }
      assert buffer[..|buffer|] == buffer;
      ok, written := true, Some(SavedFile(filename, content));
    }

    method W(filename: string := "", canOpen: bool) returns (outcome: Outcome, saved: Option<SavedFile>)
      modifies this
      ensures var w := Write(old(Snapshot()), filename, canOpen);
        Snapshot() == w.state && outcome == w.outcome && saved == w.saved
    {
      saved := None;
      if filename != "" {
        var ok, written := SaveBufferToFile(filename, canOpen);
        if ok {
          currentFilename := filename;
          bufferDirty := false;
          outcome, saved := Done, written;
        } else {
          outcome := Failed(WritingFile);
        }
      } else if currentFilename == "" {
        outcome := Failed(FilenameRequired);
      } else {
        var ok, written := SaveBufferToFile(currentFilename, canOpen);
        if ok {
          bufferDirty := false;
          outcome, saved := Done, written;
        } else {
          outcome := Failed(WritingFile);
        }
      }
    }

    method J(lineNumber: int) returns (outcome: Outcome)
      modifies this
      ensures var j := Jump(old(Snapshot()), lineNumber);
        Snapshot() == j.state && outcome == j.outcome
    {
      outcome := Done;
      if lineNumber == 0 {
        currentLine := 0;
      } else if lineNumber == -1 {
        currentLine := |buffer| - 1;
      } else if lineNumber > 0 && lineNumber <= |buffer| {
        currentLine := lineNumber - 1;
      } else {
        outcome := Failed(InvalidLineNumber);
      }
    }

    method I(text: string := "") returns (outcome: Outcome)
      modifies this
      ensures var i := Insert(old(Snapshot()), text);
        Snapshot() == i.state && outcome == i.outcome
    {
      if 0 <= currentLine < |buffer| {
        buffer := buffer[currentLine := text + buffer[currentLine]];
        bufferDirty := true;
        outcome := Done;
      } else {
        outcome := Failed(InvalidCurrentLine);
      }
    }

    /** Returns the lines `L` prints, or the error it reports. */
    method L(startLine: int := 0, endLine: int := -1) returns (listed: Result<seq<string>>)
      ensures listed == List(buffer, startLine, endLine)
    {
      var first := startLine;
      if first == 0 {
        first := 1;
      }
      if first > 0 && first <= |buffer| {
        if endLine == -1 {
          listed := Ok([buffer[first - 1]]);
        } else if endLine > 0 && endLine <= |buffer| && endLine >= first {
          var shown := [];
          for i := first - 1 to endLine
            invariant shown == buffer[first - 1..i]
          {
            shown := shown + [buffer[i]];
          }
          listed := Ok(shown);
        } else {
          listed := Err(InvalidLineNumbers);
        }
      } else {
        listed := Err(InvalidLineNumbers);
      }
    }

    method D(startLine: int := -1, endLine: int := -1) returns (outcome: Outcome)
      modifies this
      ensures var d := Delete(old(Snapshot()), startLine, endLine);
        Snapshot() == d.state && outcome == d.outcome
    {
      var first, last := startLine, endLine;
      if first == -1 {
        first, last := currentLine + 1, currentLine + 1;
      }
      if first > 0 && first <= |buffer| && last > 0 && last <= |buffer| && first <= last {
        buffer := buffer[..first - 1] + buffer[last..];
        bufferDirty := true;
        outcome := Done;
      } else {
        outcome := Failed(InvalidLineNumbers);
      }
    }

    method A(text: string := "") returns (outcome: Outcome)
      modifies this
      ensures var a := Append(old(Snapshot()), text);
        Snapshot() == a.state && outcome == a.outcome
    {
      if 0 <= currentLine < |buffer| {
        buffer := buffer[..currentLine + 1] + [text] + buffer[currentLine + 1..];
        currentLine := currentLine + 1;
        bufferDirty := true;
        outcome := Done;
      } else {
        outcome := Failed(InvalidCurrentLine);
      }
    }

    /** `response` is the answer read at the save prompt. `outcome` is what
        the save, if one is made, reports; it does not stop the quit. */
    method Q(response: string, canOpen: bool) returns (quit: bool, outcome: Outcome, saved: Option<SavedFile>)
      modifies this
      ensures var q := Quit(old(Snapshot()), response, canOpen);
        Snapshot() == q.state && outcome == q.outcome && quit == q.quit && saved == q.saved
    {
      outcome, saved := Done, None;
      if bufferDirty {
        if response == "Y" || response == "y" {
          outcome, saved := W(currentFilename, canOpen);
        }
      }
      quit := true;
    }
  }
}
