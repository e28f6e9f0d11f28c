/** `ParsingConfigFileException`: four inputs (file name with optional line
    number, message, offending line with optional column) and the `what()` text
    that every setter rebuilds through `regenerate`. */
module ParseError {
  import opened Strings

  /** A column inside the offending line; -1 means "no column". */
  type Column = x: int | x >= -1

  datatype ParsingException = ParsingException(
    filename: string,
    lineNumber: int,     // -1: no line number
    msg: string,
    line: string,
    pos: Column,
    what: string)

  /** A freshly constructed exception. */
  const Fresh: ParsingException := ParsingException("", -1, "", "", -1, "")

  /** `file_ptr`: the file name, followed by ":" and the line number when both
      are known; empty when the file name is. */
  function Prefix(ex: ParsingException): (r: string)
    ensures r == "" <==> ex.filename == ""
    ensures ex.filename != "" ==> ex.filename <= r
    ensures ex.filename != "" && ex.lineNumber == -1 ==> r == ex.filename
    ensures ex.filename != "" && ex.lineNumber != -1 ==>
              |r| > |ex.filename| + 1 && r[|ex.filename|] == ':'
              && r[|ex.filename| + 1..] == IntToString(ex.lineNumber)
  {
    if ex.filename == "" then ""
    else if ex.lineNumber != -1 then ex.filename + ":" + IntToString(ex.lineNumber)
    else ex.filename
  }

  /** The line that quotes the offending source line. */
  function LocationLine(ex: ParsingException): string {
    Prefix(ex) + " " + ex.line
  }

  /** How many spaces precede the caret. */
  function CaretColumn(ex: ParsingException): nat
    requires ex.pos != -1
  {
    if |Prefix(ex)| == 0 then 0 else |Prefix(ex)| + 1 + ex.pos
  }

  function CaretLine(ex: ParsingException): string
    requires ex.pos != -1
  {
    Spaces(CaretColumn(ex)) + "^"
  }

  /** The text `regenerate` starts from: the message when there is one, the
      previous text otherwise. */
  function Base(ex: ParsingException): string {
    if ex.msg != "" then ex.msg else ex.what
  }

  /** What `regenerate` appends after the base text when there is an offending
      line: the location line and, when there is a column, the caret line. */
  function Block(ex: ParsingException): (r: string)
    ensures |r| > |LocationLine(ex)| && r[0] == '\n'
    ensures r[1..1 + |LocationLine(ex)|] == LocationLine(ex)
    ensures ex.pos != -1 ==>
              |r| > |CaretLine(ex)| + 1 && r[|r| - |CaretLine(ex)| - 1..] == "\n" + CaretLine(ex)
    ensures |r| == 1 + |LocationLine(ex)| + (if ex.pos != -1 then 1 + |CaretLine(ex)| else 0)
  {
    var located := "\n" + LocationLine(ex);
    assert located[1..] == LocationLine(ex);
    if ex.pos != -1 then located + "\n" + CaretLine(ex) else located
  }

  /** `regenerate`: reset the text to the message when there is one, then, when
      there is an offending line, append the location block. */
  function Regenerate(ex: ParsingException): (r: ParsingException)
    ensures r == ex.(what := r.what)
    ensures ex.line == "" ==> r.what == Base(ex)
    ensures ex.line != "" ==> r.what == Base(ex) + Block(ex)
  {
    if ex.line == "" then ex.(what := Base(ex))
    else ex.(what := Base(ex) + Block(ex))
  }

  /** `set_file` */
  function SetFile(ex: ParsingException, filename: string, lineNumber: int): (r: ParsingException)
    ensures r.filename == filename && r.lineNumber == lineNumber
    ensures r.msg == ex.msg && r.line == ex.line && r.pos == ex.pos
    ensures r.what == Base(ex) + (if ex.line == "" then "" else Block(r))
  {
    var ex' := ex.(filename := filename, lineNumber := lineNumber);
    BlockIgnoresText(ex', Regenerate(ex').what);
    Regenerate(ex')
  }

  /** `set_error_message` */
  function SetErrorMessage(ex: ParsingException, msg: string): (r: ParsingException)
    ensures r.msg == msg
    ensures r.filename == ex.filename && r.lineNumber == ex.lineNumber
    ensures r.line == ex.line && r.pos == ex.pos
    ensures r.what == (if msg != "" then msg else ex.what) + (if ex.line == "" then "" else Block(r))
  {
    var ex' := ex.(msg := msg);
    BlockIgnoresText(ex', Regenerate(ex').what);
    Regenerate(ex')
  }

  /** `set_line` */
  function SetLine(ex: ParsingException, line: string, pos: Column): (r: ParsingException)
    ensures r.line == line && r.pos == pos
    ensures r.filename == ex.filename && r.lineNumber == ex.lineNumber && r.msg == ex.msg
    ensures r.what == Base(ex) + (if line == "" then "" else Block(r))
  {
    var ex' := ex.(line := line, pos := pos);
    BlockIgnoresText(ex', Regenerate(ex').what);
    Regenerate(ex')
  }

  /** With a message set, regenerating again changes nothing. */
  lemma RegenerateIdempotent(ex: ParsingException)
    requires ex.msg != ""
    ensures Regenerate(Regenerate(ex)) == Regenerate(ex)
  {
  }

  /** Without a message but with an offending line, every regeneration appends
      the same non-empty location block once more. */
  lemma RegenerateRepeats(ex: ParsingException)
    requires ex.msg == "" && ex.line != ""
    ensures var once := Regenerate(ex).what;
            |once| > |ex.what| && ex.what <= once
            && Regenerate(Regenerate(ex)).what == once + once[|ex.what|..]
  {
    var first := Regenerate(ex);
    BlockIgnoresText(ex, first.what);
    assert first.what[|ex.what|..] == Block(ex);
  }

  /** The appended block depends on everything but the current text. */
  lemma BlockIgnoresText(ex: ParsingException, w: string)
    ensures Block(ex.(what := w)) == Block(ex)
  {
    var ex' := ex.(what := w);
    assert Prefix(ex') == Prefix(ex);
    assert LocationLine(ex') == LocationLine(ex);
  }

  /** With a file name, the caret stands under the offending character of the
      quoted line. */
  lemma CaretUnderOffendingChar(ex: ParsingException)
    requires ex.filename != "" && 0 <= ex.pos < |ex.line|
    ensures CaretColumn(ex) < |LocationLine(ex)|
    ensures LocationLine(ex)[CaretColumn(ex)] == ex.line[ex.pos]
    ensures CaretLine(ex)[CaretColumn(ex)] == '^'
  {
  }

  /** Without a file name the caret is never indented, whatever the column. */
  lemma CaretWithoutFile(ex: ParsingException)
    requires ex.filename == "" && ex.pos != -1
    ensures CaretLine(ex) == "^"
  {
  }

  /** The exception `load` throws for a malformed line: file and line number,
      message, then the line with its column. The three regenerations leave the
      message, the location line and the caret line, nothing more. */
  function Located(filename: string, lineNumber: int, msg: string, line: string, pos: Column): (r: ParsingException)
    requires msg != "" && line != ""
    ensures r.filename == filename && r.lineNumber == lineNumber && r.msg == msg
    ensures r.line == line && r.pos == pos
    ensures r.what == msg + Block(r)
  {
    var filed := SetFile(Fresh, filename, lineNumber);
    var messaged := SetErrorMessage(filed, msg);
    assert messaged.what == msg && messaged.line == "";
    var lined := messaged.(line := line, pos := pos);
    var r := SetLine(messaged, line, pos);
    assert r == Regenerate(lined) && Base(lined) == msg;
    BlockIgnoresText(lined, r.what);
    r
  }

  /** The exception `load` throws for a bad key or value: file and line number
      and a message, whose text is the message alone. */
  function Unlocated(filename: string, lineNumber: int, msg: string): (r: ParsingException)
    requires msg != ""
    ensures r.filename == filename && r.lineNumber == lineNumber && r.msg == msg
    ensures r.line == "" && r.pos == -1 && r.what == msg
  {
    SetErrorMessage(SetFile(Fresh, filename, lineNumber), msg)
  }
}
