/** The on-disk format of an edited file: one buffer line per text line,
    each followed by a newline. Writing is `Serialize`; reading is `Lines`,
    which splits the file content the way repeated `getline` calls do. */
module FileFormat {

  /** No line of the buffer contains a line separator. Every buffer that
      `Lines` produces has this property, and it is what makes the round trip
      from buffer to file and back exact. */
  predicate NoNewlines(lines: seq<string>)
  {
    forall i :: 0 <= i < |lines| ==> '\n' !in lines[i]
  }

  /** The text written for a buffer: every line followed by "\n", in order. */
  function Serialize(lines: seq<string>): (text: string)
    ensures text == [] <==> lines == []
    ensures lines != [] ==> text[|text| - 1] == '\n'
    ensures |text| >= |lines|
  {
    if lines == [] then [] else lines[0] + "\n" + Serialize(lines[1..])
  }

  /** Appending a line to the buffer appends that line and a newline to the
      written text: the form in which the write loop produces it. */
  lemma {:induction false} SerializeSnoc(lines: seq<string>, line: string)
    ensures Serialize(lines + [line]) == Serialize(lines) + line + "\n"
  {
    if lines != [] {
      calc {
        Serialize(lines + [line]);
        { assert (lines + [line])[1..] == lines[1..] + [line]; }
        lines[0] + "\n" + Serialize(lines[1..] + [line]);
        { SerializeSnoc(lines[1..], line); }
        lines[0] + "\n" + (Serialize(lines[1..]) + line + "\n");
        Serialize(lines) + line + "\n";
      }
    } else {
      assert lines + [line] == [line];
    }
  }

  /** Position of the first newline of a text that has one. */
  function FirstNewline(s: string): (j: nat)
    requires '\n' in s
    ensures j < |s| && s[j] == '\n'
    ensures '\n' !in s[..j]
  {
    if s[0] == '\n' then 0
    else
      assert '\n' in s[1..] by {
        var k :| 0 <= k < |s| && s[k] == '\n';
        assert s[1..][k - 1] == '\n';
      }
      var j := 1 + FirstNewline(s[1..]);
      assert s[..j] == [s[0]] + s[1..][..j - 1];
      j
  }

  /** One `getline` call on a stream whose unread content is `input`: the
      characters up to the first newline, which is consumed and dropped, or
      everything that is left when there is no newline. The second component
      is what remains unread. At end of input `getline` extracts nothing and
      fails, so it is only called on non-empty input. */
  function GetLine(input: string): (r: (string, string))
    requires input != []
    ensures '\n' !in r.0
    ensures '\n' in input ==> input == r.0 + "\n" + r.1
    ensures '\n' !in input ==> r == (input, "")
    ensures |r.1| < |input|
  {
    if '\n' in input then
      var j := FirstNewline(input);
      assert input == input[..j] + "\n" + input[j + 1..];
      (input[..j], input[j + 1..])
    else
      (input, "")
  }

  /** The lines read from a file whose content is `text`, by calling
      `getline` until it fails. A final line without a newline is still a
      line; a final newline does not start another (empty) line. */
  function Lines(text: string): (lines: seq<string>)
    ensures NoNewlines(lines)
    ensures |lines| <= |text|
    ensures lines == [] <==> text == []
    decreases |text|
  {
    if text == [] then []
    else
      var r := GetLine(text);
      [r.0] + Lines(r.1)
  }

  /** Two newline-free heads followed by a newline can only be equal
      splits of the same text in one way. */
  lemma SplitUnique(a: string, b: string, c: string, d: string)
    requires '\n' !in a && '\n' !in c
    requires a + "\n" + b == c + "\n" + d
    ensures a == c && b == d
  {
    var t := a + "\n" + b;
    assert t[|a|] == '\n' && (c + "\n" + d)[|c|] == '\n';
    assert a == t[..|a|];
    assert c == t[..|c|];
    assert b == t[|a| + 1..];
    assert d == t[|c| + 1..];
  }

  /** Reading back what was written gives the buffer that was written,
      provided no line holds a newline of its own. */
  lemma {:induction false} LinesOfSerialize(lines: seq<string>)
    requires NoNewlines(lines)
    ensures Lines(Serialize(lines)) == lines
  {
    if lines != [] {
      var rest := Serialize(lines[1..]);
      var text := Serialize(lines);
      assert text == lines[0] + "\n" + rest;
      assert '\n' in text by { assert text[|lines[0]|] == '\n'; }
      var r := GetLine(text);
      assert '\n' !in lines[0];
      SplitUnique(lines[0], rest, r.0, r.1);
      assert NoNewlines(lines[1..]) by {
        forall i | 0 <= i < |lines[1..]| ensures '\n' !in lines[1..][i] {
          assert lines[1..][i] == lines[i + 1];
        }
      }
      LinesOfSerialize(lines[1..]);
    }
  }

  /** Writing back what was read reproduces the file, except that a file
      whose last line lacks a newline gains one. */
  lemma {:induction false} SerializeOfLines(text: string)
    ensures Serialize(Lines(text)) ==
      if text == [] || text[|text| - 1] == '\n' then text else text + "\n"
    decreases |text|
  {
    if text != [] {
      var r := GetLine(text);
      assert Lines(text) == [r.0] + Lines(r.1);
      assert Serialize(Lines(text)) == r.0 + "\n" + Serialize(Lines(r.1));
      SerializeOfLines(r.1);
      if '\n' in text {
        assert text == r.0 + "\n" + r.1;
        if r.1 != [] {
          assert text[|text| - 1] == r.1[|r.1| - 1];
        }
      }
    }
  }

  /** The smallest cases of the format: the empty buffer and a buffer of one
      empty line, in both directions, and an interior empty line. */
  lemma FormatExamples()
    ensures Serialize([]) == "" && Lines("") == []
    ensures Serialize([""]) == "\n" && Lines("\n") == [""]
    ensures Lines("a\n\nb") == ["a", "", "b"]
  {
    assert Lines("\n") == [""] by {
      assert GetLine("\n") == ("", "");
    }
    assert Lines("a\n\nb") == ["a", "", "b"] by {
      assert "a\n\nb" == "a" + "\n" + "\nb";
      SplitUnique("a", "\nb", GetLine("a\n\nb").0, GetLine("a\n\nb").1);
      assert "\nb" == "" + "\n" + "b";
      SplitUnique("", "b", GetLine("\nb").0, GetLine("\nb").1);
      assert Lines("b") == ["b"];
    }
  }
}
