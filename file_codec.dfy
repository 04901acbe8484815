/**
  * The console program's file format (lab-2-main/src/file_module.py): one
  * integer per line. `input_file` reads every line of the file opened in
  * text mode (so "\r\n" and a lone "\r" end lines as "\n" does), strips it
  * and converts it with `int`, all or nothing; `save_to_file` writes each
  * integer's decimal form followed by a line feed. Opening and reading the
  * file is given as its outcome.
  */
module FileCodec {
  import opened Options
  import opened Text
  import opened Decimal

  /** What opening and reading the file gave: no such file, another failure, or its text. */
  datatype FileRead = NotFound | ReadFailed | Content(text: string)

  /**
    * Python's universal newlines, as a text file is read: "\r\n" and a lone
    * "\r" each become "\n"; every other character is kept.
    */
  function Newlines(text: string): (t: string)
    ensures '\r' !in t
    ensures text == "" <==> t == ""
  {
    if text == "" then ""
    else if text[0] == '\r' then
      if |text| > 1 && text[1] == '\n' then "\n" + Newlines(text[2..]) else "\n" + Newlines(text[1..])
    else [text[0]] + Newlines(text[1..])
  }

  /** A text without carriage returns is read as it is. */
  lemma NewlinesPlain(text: string)
    requires '\r' !in text
    ensures Newlines(text) == text
  {
    NewlinesPrefix(text, "");
    assert text + "" == text;
  }

  /**
    * The lines of a text whose line breaks are all "\n", without their line
    * feeds: the text cut at each "\n", where a final "\n" does not begin
    * another line and an empty text has no lines.
    */
  function SplitLines(text: string): (lines: seq<string>)
    ensures forall l :: l in lines ==> '\n' !in l && l in Split(text, '\n')
    ensures text == "" <==> lines == []
  {
    if text == "" then []
    else
      var parts := Split(text, '\n');
      if parts[|parts| - 1] == "" then
        assert |parts| > 1 by {
          if |parts| == 1 {
            JoinSplit(text, '\n');
          }
        }
        assert forall l :: l in parts[..|parts| - 1] ==> l in parts;
        parts[..|parts| - 1]
      else parts
  }

  /**
    * The lines a Python text file yields: line breaks translated, then cut
    * as `SplitLines` does. (Stripping a line removes its line feed, so the
    * stripped lines are the same with or without it.)
    */
  function Lines(text: string): (lines: seq<string>)
    ensures forall l :: l in lines ==> '\n' !in l && '\r' !in l
    ensures text == "" <==> lines == []
  {
    var t := Newlines(text);
    SplitAvoids(t, '\n', '\r');
    SplitLines(t)
  }

  /** `[int(line.strip()) for line in lines]`: None as soon as one line is not an integer. */
  function ParseLines(lines: seq<string>): (r: Option<seq<int>>)
    ensures r.Some? <==> forall i :: 0 <= i < |lines| ==> IsIntegerText(Strip(lines[i]), true)
    ensures r.Some? ==> |r.value| == |lines|
    ensures r.Some? ==> forall i :: 0 <= i < |lines| ==> ParseInteger(Strip(lines[i]), true) == Some(r.value[i])
  {
    if forall i :: 0 <= i < |lines| ==> IsIntegerText(Strip(lines[i]), true) then
      Some(seq(|lines|, i requires 0 <= i < |lines| => ParseInteger(Strip(lines[i]), true).GetOr(0)))
    else None
  }

  /**
    * `input_file`: a missing or unreadable file gives None; otherwise every
    * stripped line must be an integer (a blank line is not), giving one
    * integer per line in file order, or None.
    */
  function InputFile(read: FileRead): (r: Option<seq<int>>)
    ensures !read.Content? ==> r == None
    ensures read.Content? ==>
      (r.Some? <==> forall l :: l in Lines(read.text) ==> IsIntegerText(Strip(l), true))
    ensures read.Content? && r.Some? ==> |r.value| == |Lines(read.text)|
    ensures read == Content("") ==> r == Some([])
  {
    match read
    case Content(text) =>
      var lines := Lines(text);
      assert forall l :: l in lines ==> exists i :: 0 <= i < |lines| && lines[i] == l;
      ParseLines(lines)
    case _ => None
  }

  /** The decimal forms of the integers, in order. */
  function Texts(xs: seq<int>): (ts: seq<string>)
    ensures |ts| == |xs| && forall i :: 0 <= i < |xs| ==> ts[i] == IntToString(xs[i])
  {
    if xs == [] then [] else [IntToString(xs[0])] + Texts(xs[1..])
  }

  /** `save_to_file`: what is written, each element's `str` followed by "\n". */
  function SavedText(xs: seq<int>): (text: string)
    ensures |text| >= 2 * |xs|
    ensures xs != [] ==> text[|text| - 1] == '\n'
  {
    if xs == [] then "" else IntToString(xs[0]) + "\n" + SavedText(xs[1..])
  }

  /** Loading what `save_to_file` wrote gives the same list back. */
  lemma SaveThenLoad(xs: seq<int>)
    ensures InputFile(Content(SavedText(xs))) == Some(xs)
  {
    var text := SavedText(xs);
    if xs != [] {
      SavedWithoutReturn(xs);
      NewlinesPlain(text);
      SplitSaved(xs);
      assert SplitLines(text) == Texts(xs);
      ParseTexts(xs);
    }
  }

  /** A list written as its decimal forms joined by "\n", with no final line feed, loads back too. */
  lemma JoinedThenLoad(xs: seq<int>)
    requires xs != []
    ensures InputFile(Content(Join(Texts(xs), "\n"))) == Some(xs)
  {
    var ts := Texts(xs);
    TextsWithoutLineFeed(xs);
    var text := Join(ts, "\n");
    SplitJoin(ts, '\n');
    assert |ts[|ts| - 1]| > 0;
    JoinNonEmpty(ts, "\n");
    JoinedWithoutReturn(xs);
    NewlinesPlain(text);
    LinesOfUnterminated(text);
    ParseTexts(xs);
  }

  lemma {:induction false} SavedWithoutReturn(xs: seq<int>)
    ensures '\r' !in SavedText(xs)
  {
    if xs != [] {
      SavedWithoutReturn(xs[1..]);
      IntToStringChars(xs[0]);
      assert SavedText(xs) == IntToString(xs[0]) + "\n" + SavedText(xs[1..]);
    }
  }

  lemma {:induction false} JoinedWithoutReturn(xs: seq<int>)
    ensures '\r' !in Join(Texts(xs), "\n")
  {
    if |xs| > 0 {
      IntToStringChars(xs[0]);
      if |xs| > 1 {
        JoinedWithoutReturn(xs[1..]);
        assert Texts(xs)[1..] == Texts(xs[1..]);
      }
    }
  }

  lemma TextsWithoutLineFeed(xs: seq<int>)
    ensures forall t :: t in Texts(xs) ==> '\n' !in t
  {
    var ts := Texts(xs);
    forall t | t in ts ensures '\n' !in t {
      var i :| 0 <= i < |ts| && ts[i] == t;
      NoLineFeed(xs[i]);
    }
  }

  /** A non-empty text whose last line has no final line feed: its lines are its pieces. */
  lemma LinesOfUnterminated(text: string)
    requires text != "" && Split(text, '\n')[|Split(text, '\n')| - 1] != ""
    ensures SplitLines(text) == Split(text, '\n')
  {
  }

  lemma {:induction false} JoinNonEmpty(ts: seq<string>, sep: string)
    requires |ts| > 0 && ts[|ts| - 1] != ""
    ensures Join(ts, sep) != ""
  {
    if |ts| > 1 {
      JoinNonEmpty(ts[1..], sep);
    }
  }

  lemma {:induction false} SplitSaved(xs: seq<int>)
    ensures Split(SavedText(xs), '\n') == Texts(xs) + [""]
  {
    if xs != [] {
      var t, rest := IntToString(xs[0]), SavedText(xs[1..]);
      SplitSaved(xs[1..]);
      NoLineFeed(xs[0]);
      SplitLine(t, rest);
      assert SavedText(xs) == t + "\n" + rest;
      assert Texts(xs) == [t] + Texts(xs[1..]);
    }
  }

  lemma NoLineFeed(x: int)
    ensures '\n' !in IntToString(x)
  {
    IntToStringChars(x);
  }

  /** A line without a line feed, a line feed and the rest split as the line before the rest's lines. */
  lemma SplitLine(line: string, rest: string)
    requires '\n' !in line
    ensures Split(line + "\n" + rest, '\n') == [line] + Split(rest, '\n')
  {
    SplitPiece(line, "\n" + rest, '\n');
    assert line + "\n" + rest == line + ("\n" + rest);
    assert ("\n" + rest)[1..] == rest;
  }

  lemma ParseTexts(xs: seq<int>)
    ensures ParseLines(Texts(xs)) == Some(xs)
  {
    var ts := Texts(xs);
    forall i | 0 <= i < |xs| ensures ParseInteger(Strip(ts[i]), true) == Some(xs[i]) {
      IntegerTextRead(xs[i]);
    }
    var r := ParseLines(ts);
    assert r.value == xs;
  }

  /** The decimal form of an integer, as a line, reads back as that integer. */
  lemma IntegerTextRead(x: int)
    ensures ParseInteger(Strip(IntToString(x)), true) == Some(x)
  {
    IntToStringTrimmed(x);
    ParseIntToString(x, true);
  }

  /** A file whose first line is not an integer loads as None: a file of words does. */
  lemma FirstLineNotInteger(first: string, rest: string)
    requires '\n' !in first && '\r' !in first && !IsIntegerText(Strip(first), true)
    ensures InputFile(Content(first + "\n" + rest)) == None
  {
    var text := first + "\n" + Newlines(rest);
    NewlinesAfterLine(first, rest);
    SplitLine(first, Newlines(rest));
    LinesArePieces(text);
    var lines := Lines(first + "\n" + rest);
    assert lines[0] == first;
  }

  /** A line without line breaks comes through the translation unchanged. */
  lemma NewlinesAfterLine(line: string, rest: string)
    requires '\n' !in line && '\r' !in line
    ensures Newlines(line + "\n" + rest) == line + "\n" + Newlines(rest)
  {
    NewlinesPrefix(line + "\n", rest);
    assert line + "\n" + rest == (line + "\n") + rest;
  }

  /** A prefix without carriage returns is kept as it is. */
  lemma NewlinesPrefix(p: string, q: string)
    requires '\r' !in p
    ensures Newlines(p + q) == p + Newlines(q)
  {
    NewlinesPrefixAt(p, q);
  }

  lemma {:induction false} NewlinesPrefixAt(p: string, q: string)
    requires forall i :: 0 <= i < |p| ==> p[i] != '\r'
    ensures Newlines(p + q) == p + Newlines(q)
  {
    var s := p + q;
    if p == [] {
      assert s == q;
    } else {
      var tail := p[1..];
      assert s[0] == p[0] && s[1..] == tail + q;
      NewlinesStep(s);
      NewlinesPrefixAt(tail, q);
      assert [p[0]] + (tail + Newlines(q)) == p + Newlines(q) by {
        assert p == [p[0]] + tail;
      }
    }
  }

  lemma NewlinesStep(s: string)
    requires s != [] && s[0] != '\r'
    ensures Newlines(s) == [s[0]] + Newlines(s[1..])
  {
  }

  /** A text's lines are its pieces, except perhaps the empty piece after a final line feed. */
  lemma LinesArePieces(text: string)
    requires text != ""
    ensures |Split(text, '\n')| - 1 <= |SplitLines(text)| <= |Split(text, '\n')|
    ensures forall i :: 0 <= i < |SplitLines(text)| ==> SplitLines(text)[i] == Split(text, '\n')[i]
  {
  }

  /** The word file of the console program's tests loads as None. */
  lemma WordsFileIsNone(rest: string)
    requires rest == "is\na\ntest\nfor\nincorrect\ninput\n%)"
    ensures InputFile(Content("This" + "\n" + rest)) == None
  {
    StripNoSpace("This");
    assert !IsDigit('T');
    FirstLineNotInteger("This", rest);
  }

  /**
    * A file saved with carriage returns, alone or before line feeds, loads
    * like one saved with line feeds.
    */
  lemma CarriageReturnsEndLines(cr: string, crlf: string)
    requires cr == "1\r2\r" && crlf == "1\r\n2\r\n"
    ensures InputFile(Content(cr)) == Some([1, 2])
    ensures InputFile(Content(crlf)) == Some([1, 2])
  {
    SavedOneTwo();
    TranslatedCr(cr);
    TranslatedCrLf(crlf);
    LoadTranslated(cr, [1, 2]);
    LoadTranslated(crlf, [1, 2]);
  }

  /** A text whose translation is what `save_to_file` writes loads as the saved list. */
  lemma LoadTranslated(text: string, xs: seq<int>)
    requires Newlines(text) == SavedText(xs)
    ensures InputFile(Content(text)) == Some(xs)
  {
    SavedWithoutReturn(xs);
    NewlinesPlain(SavedText(xs));
    assert Lines(text) == Lines(SavedText(xs));
    SaveThenLoad(xs);
  }

  lemma TranslatedCr(cr: string)
    requires cr == "1\r2\r"
    ensures Newlines(cr) == "1\n2\n"
  {
    assert Newlines("\r") == "\n";
    assert Newlines("2\r") == "2\n" by {
      assert "2\r"[1..] == "\r";
    }
    assert cr[1..] == "\r2\r" && cr[2..] == "2\r";
  }

  lemma TranslatedCrLf(crlf: string)
    requires crlf == "1\r\n2\r\n"
    ensures Newlines(crlf) == "1\n2\n"
  {
    assert Newlines("\r\n") == "\n" by {
      assert "\r\n"[2..] == "";
    }
    assert Newlines("2\r\n") == "2\n" by {
      assert "2\r\n"[1..] == "\r\n";
    }
    assert crlf[1..] == "\r\n2\r\n" && crlf[3..] == "2\r\n";
  }

  lemma SavedOneTwo()
    ensures SavedText([1, 2]) == "1\n2\n"
  {
    assert [1, 2][1..] == [2];
    assert [2][1..] == [];
  }
}
