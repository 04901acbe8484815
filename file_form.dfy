/**
  * The file input form
  * (lab-2-web/frontend/src/components/form/input/FileArrayForm.js): a chosen
  * ".txt" file is read as text and every line that `parseInt` can read
  * after trimming gives one number; other lines are dropped. The browser's
  * asynchronous read is given as its outcome: the text, or None for a read
  * error.
  */
module FileArrayForm {
  import opened Options
  import opened Text
  import opened Decimal
  import opened Tokens
  import opened Messages
  import opened CreateArrayForm
  import FileCodec

  const TXT := ".txt"

  /** `parseInt(line.trim())`, None standing for NaN. */
  function LineValue(line: string): Option<int> {
    JsParseInt(Strip(line))
  }

  /** `lines.map(line => parseInt(line.trim()))` */
  function LineValues(lines: seq<string>): (values: seq<Option<int>>)
    ensures |values| == |lines| && forall i :: 0 <= i < |lines| ==> values[i] == LineValue(lines[i])
  {
    seq(|lines|, i requires 0 <= i < |lines| => LineValue(lines[i]))
  }

  /** `.filter(num => num !== null)`: the present values, in order. */
  function Present(values: seq<Option<int>>): (kept: seq<int>)
    ensures |kept| <= |values|
    ensures forall k :: 0 <= k < |kept| ==> Some(kept[k]) in values
    ensures kept == [] <==> forall i :: 0 <= i < |values| ==> values[i].None?
  {
    if values == [] then []
    else
      var rest := Present(values[1..]);
      assert forall i :: 1 <= i < |values| ==> values[1..][i - 1] == values[i];
      assert forall x :: x in values[1..] ==> x in values;
      match values[0]
      case Some(v) => [v] + rest
      case None => rest
  }

  /** `parseFileContent`: split on "\n", read each trimmed line, keep the numbers. */
  function ParseFileContent(content: string): (values: seq<int>)
    ensures |values| <= Count(content, '\n') + 1
    ensures forall k :: 0 <= k < |values| ==> Some(values[k]) in LineValues(Split(content, '\n'))
  {
    Present(LineValues(Split(content, '\n')))
  }

  /** Filtering a concatenation filters each part. */
  lemma {:induction false} PresentAppend(a: seq<Option<int>>, b: seq<Option<int>>)
    ensures Present(a + b) == Present(a) + Present(b)
  {
    var ab := a + b;
    if a == [] {
      assert ab == b;
    } else {
      assert ab[0] == a[0] && ab[1..] == a[1..] + b;
      PresentAppend(a[1..], b);
    }
  }

  /** A single value is kept exactly when it is present. */
  lemma PresentSingle(v: Option<int>)
    ensures Present([v]) == (if v.Some? then [v.value] else [])
  {
  }

  /**
    * The content is read line by line: what comes before a line feed and
    * what comes after it are read separately and their numbers follow each
    * other.
    */
  lemma ParseFileContentConcat(a: string, b: string)
    ensures ParseFileContent(a + "\n" + b) == ParseFileContent(a) + ParseFileContent(b)
  {
    SplitConcat(a, b, '\n');
    var first, second := Split(a, '\n'), Split(b, '\n');
    LineValuesAppend(first, second);
    PresentAppend(LineValues(first), LineValues(second));
  }

  lemma LineValuesAppend(first: seq<string>, second: seq<string>)
    ensures LineValues(first + second) == LineValues(first) + LineValues(second)
  {
  }

  /** A single line gives its number when `parseInt` reads one, and nothing otherwise. */
  lemma ParseFileContentLine(line: string)
    requires '\n' !in line
    ensures ParseFileContent(line) == (if LineValue(line).Some? then [LineValue(line).value] else [])
  {
    SplitPiece(line, [], '\n');
    assert line + [] == line;
    PresentSingle(LineValue(line));
  }

  /**
    * A file saved by the console program (one integer and a line feed per
    * element) loads in the web form as the same list: the final empty line
    * is dropped as NaN.
    */
  lemma SavedFileLoads(xs: seq<int>)
    ensures ParseFileContent(FileCodec.SavedText(xs)) == xs
  {
    var lines := Split(FileCodec.SavedText(xs), '\n');
    FileCodec.SplitSaved(xs);
    var vs := LineValues(lines);
    forall i | 0 <= i < |xs| ensures vs[i] == Some(xs[i]) {
      assert lines[i] == IntToString(xs[i]);
      IntegerLineRead(xs[i]);
    }
    EmptyLineDropped(lines[|xs|]);
    PresentSomesThenNone(vs, xs);
  }

  lemma EmptyLineDropped(line: string)
    requires line == []
    ensures LineValue(line) == None
  {
    assert Strip(line) == line;
  }

  /** Filtering values all present but the last gives the present ones. */
  lemma {:induction false} PresentSomesThenNone(vs: seq<Option<int>>, xs: seq<int>)
    requires |vs| == |xs| + 1 && vs[|xs|] == None
    requires forall i :: 0 <= i < |xs| ==> vs[i] == Some(xs[i])
    ensures Present(vs) == xs
  {
    if xs != [] {
      PresentSomesThenNone(vs[1..], xs[1..]);
    }
  }

  /** The decimal form of an integer, as a line, reads as that integer. */
  lemma IntegerLineRead(x: int)
    ensures LineValue(IntToString(x)) == Some(x)
  {
    var t := IntToString(x);
    FileCodec.IntegerTextRead(x);
    IntToStringTrimmed(x);
    JsParseIntOfIntegerText(t);
  }

  /** A line is read by its leading integer: "12abc" gives 12, "3.7" gives 3. */
  lemma LeadingIntegerKept(x: int, rest: string)
    requires rest == [] || (!IsDigit(rest[0]) && !IsSpace(rest[|rest| - 1]))
    ensures LineValue(IntToString(x) + rest) == Some(x)
  {
    var s := IntToString(x) + rest;
    IntToStringChars(x);
    assert s[0] == IntToString(x)[0] && !IsSpace(s[0]);
    assert !IsSpace(s[|s| - 1]) by {
      if rest == [] {
        assert s[|s| - 1] in IntToString(x);
      }
    }
    StripTrimmed(s);
    JsParseIntPrefix(x, rest);
  }

  /**
    * `handleFileLoad`: a non-empty parse replaces the draft and marks the
    * file valid; an empty one sets the error and marks it invalid, leaving
    * the draft.
    */
  method HandleFileLoad(f: CreateForm, content: string)
    requires f.Valid() && f.fillMethod == File
    modifies f`draft, f`isFileValid, f`error
    ensures f.Valid()
    ensures ParseFileContent(content) != [] ==>
      f.draft == Elements(Nums(ParseFileContent(content))) && f.isFileValid && f.error == old(f.error)
    ensures ParseFileContent(content) == [] ==>
      f.draft == old(f.draft) && !f.isFileValid && f.error == Some(NoValidData)
  {
    var parsedArray := ParseFileContent(content);
    if |parsedArray| > 0 {
      f.draft := Elements(Nums(parsedArray));
      f.isFileValid := true;
    } else {
      f.error := Some(NoValidData);
      f.isFileValid := false;
    }
  }

  /** `handleFileError`: sets the read error and marks the file invalid. */
  method HandleFileError(f: CreateForm)
    modifies f`isFileValid, f`error
    ensures f.error == Some(ReadFailed) && !f.isFileValid
  {
    f.error := Some(ReadFailed);
    f.isFileValid := false;
  }

  /**
    * `handleFileChange`: clears the error; a selected file whose name ends
    * in ".txt" is read (`readStarted`), any other sets the format error and
    * marks the file invalid without reading it. No selection changes nothing
    * more.
    */
  method HandleFileChange(f: CreateForm, selected: Option<string>) returns (readStarted: bool)
    modifies f`isFileValid, f`error
    ensures readStarted <==> selected.Some? && EndsWith(selected.value, TXT)
    ensures selected.None? || readStarted ==> f.error == None && f.isFileValid == old(f.isFileValid)
    ensures selected.Some? && !readStarted ==> f.error == Some(NotTxtFile) && !f.isFileValid
  {
    f.error := None;
    readStarted := false;
    if selected.Some? {
      if EndsWith(selected.value, TXT) {
        readStarted := true;
      } else {
        f.error := Some(NotTxtFile);
        f.isFileValid := false;
      }
    }
  }

  /**
    * Choosing a file from start to finish: `handleFileChange`, then, when
    * the read starts (`readAndParseFile`), `handleFileLoad` with the text or
    * `handleFileError`.
    */
  method ChooseFile(f: CreateForm, selected: Option<string>, read: Option<string>)
    requires f.Valid() && f.fillMethod == File
    modifies f`draft, f`isFileValid, f`error
    ensures f.Valid()
    ensures !(selected.Some? && EndsWith(selected.value, TXT)) ==> f.draft == old(f.draft)
    ensures selected.Some? && !EndsWith(selected.value, TXT) ==> f.error == Some(NotTxtFile) && !f.isFileValid
    ensures selected.Some? && EndsWith(selected.value, TXT) && read.None? ==>
      f.draft == old(f.draft) && f.error == Some(ReadFailed) && !f.isFileValid
    ensures selected.Some? && !(EndsWith(selected.value, TXT) && read.Some?) ==> SortDisabled(f.isFileValid, f.draft)
    ensures selected.Some? && EndsWith(selected.value, TXT) && read.Some? ==>
      (!SortDisabled(f.isFileValid, f.draft) <==> ParseFileContent(read.value) != [])
    ensures selected.Some? && EndsWith(selected.value, TXT) && read.Some? ==>
      (f.isFileValid <==> ParseFileContent(read.value) != []) &&
      (f.isFileValid ==> f.draft == Elements(Nums(ParseFileContent(read.value))) && f.error == None)
  {
    var readStarted := HandleFileChange(f, selected);
    if readStarted {
      match read
      case Some(content) => HandleFileLoad(f, content);
      case None => HandleFileError(f);
    }
  }

  /** The sort button: `disabled={!isFileValid || array.length === 0}`; the save button needs only a non-empty draft. */
  predicate SortDisabled(isFileValid: bool, d: Draft) {
    !isFileValid || d.Length() == Some(0)
  }

  /** After a load that kept some values, sorting is enabled. */
  lemma LoadedFileSortable(content: string)
    requires ParseFileContent(content) != []
    ensures !SortDisabled(true, Elements(Nums(ParseFileContent(content))))
  {
  }
}
